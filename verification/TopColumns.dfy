/** The table of "top" (cmd/compose/top.go:81-147): columns are numbered as they
    turn up, and CMD is then moved to the right end by changing the numbers in
    place. Maps are ranged over in an arbitrary order. */
module TopColumns {
  import opened Collections

  /** The processes of a container; a process gives a value for each title. */
  datatype Summary = Summary(service: string, replica: string, titles: seq<string>, processes: seq<seq<string>>) {
    predicate Valid() {
      forall proc <- processes :: |proc| >= |titles|
    }
  }

  type Header = map<string, int>
  type Row = map<string, string>

  /** The header numbers the columns from 0 on, one by one. */
  ghost predicate Numbers(header: Header, columns: seq<string>) {
    && Distinct(columns)
    && (forall title :: title in header <==> title in columns)
    && (forall i :: 0 <= i < |columns| ==> header[columns[i]] == i)
  }

  // ---- which columns there are ----

  /** The titles that are new, in the order in which they turn up. */
  function Noted(columns: seq<string>, titles: seq<string>): seq<string> {
    if titles == [] then columns
    else
      var last := titles[|titles| - 1];
      var earlier := Noted(columns, titles[..|titles| - 1]);
      if last in earlier then earlier else earlier + [last]
  }

  /** Only containers with processes contribute. */
  function Columns(containers: seq<Summary>): seq<string> {
    if containers == [] then ["SERVICE", "#"]
    else
      var last := containers[|containers| - 1];
      var earlier := Columns(containers[..|containers| - 1]);
      if last.processes == [] then earlier else Noted(earlier, last.titles)
  }

  function Others(columns: seq<string>): seq<string> {
    if columns == [] then []
    else
      var last := columns[|columns| - 1];
      Others(columns[..|columns| - 1]) + if last == "CMD" then [] else [last]
  }

  /** The others keep their order; CMD comes last, if it is there. */
  function CmdLast(columns: seq<string>): seq<string> {
    if "CMD" in columns then Others(columns) + ["CMD"] else columns
  }

  // ---- what a row holds ----

  function Filled(row: Row, titles: seq<string>, proc: seq<string>): Row
    requires |proc| >= |titles|
  {
    if titles == [] then row
    else
      var n := |titles| - 1;
      Filled(row, titles[..n], proc)[titles[n] := proc[n]]
  }

  /** A row holds the last value given for a title. */
  lemma {:induction false} FilledAt(row: Row, titles: seq<string>, proc: seq<string>, i: nat)
    requires |proc| >= |titles| && i < |titles| && forall j :: i < j < |titles| ==> titles[j] != titles[i]
    ensures titles[i] in Filled(row, titles, proc) && Filled(row, titles, proc)[titles[i]] == proc[i]
  {
    var n := |titles| - 1;
    if i < n {
      FilledAt(row, titles[..n], proc, i);
    }
  }

  /** For the other titles it holds what it held before. */
  lemma {:induction false} FilledElsewhere(row: Row, titles: seq<string>, proc: seq<string>, title: string)
    requires |proc| >= |titles| && forall j :: 0 <= j < |titles| ==> titles[j] != title
    ensures title in Filled(row, titles, proc) <==> title in row
    ensures title in row ==> Filled(row, titles, proc)[title] == row[title]
  {
    if titles != [] {
      FilledElsewhere(row, titles[..|titles| - 1], proc, title);
    }
  }

  function RowOf(c: Summary, proc: seq<string>): Row
    requires |proc| >= |c.titles|
  {
    Filled(map["SERVICE" := c.service, "#" := c.replica], c.titles, proc)
  }

  function RowsOf(c: Summary): seq<Row>
    requires c.Valid()
  {
    seq(|c.processes|, i requires 0 <= i < |c.processes| =>
      assert c.processes[i] in c.processes; RowOf(c, c.processes[i]))
  }

  function Rows(containers: seq<Summary>): seq<Row>
    requires forall c <- containers :: c.Valid()
  {
    if containers == [] then []
    else Rows(containers[..|containers| - 1]) + RowsOf(containers[|containers| - 1])
  }

  /** A row holds the last value of every title, and the service and the replica of
      its container, unless these are titles themselves. */
  lemma RowHolds(c: Summary, proc: seq<string>)
    requires |proc| >= |c.titles|
    ensures forall title :: title in RowOf(c, proc) <==> title in c.titles || title in ["SERVICE", "#"]
    ensures "SERVICE" !in c.titles ==> RowOf(c, proc)["SERVICE"] == c.service
    ensures "#" !in c.titles ==> RowOf(c, proc)["#"] == c.replica
    ensures forall i :: 0 <= i < |c.titles| && c.titles[i] !in c.titles[i + 1..] ==>
              RowOf(c, proc)[c.titles[i]] == proc[i]
  {
    var fixed: Row := map["SERVICE" := c.service, "#" := c.replica];
    FilledKeys(fixed, c.titles, proc);
    if "SERVICE" !in c.titles {
      FilledElsewhere(fixed, c.titles, proc, "SERVICE");
    }
    if "#" !in c.titles {
      FilledElsewhere(fixed, c.titles, proc, "#");
    }
    forall i | 0 <= i < |c.titles| && c.titles[i] !in c.titles[i + 1..]
      ensures RowOf(c, proc)[c.titles[i]] == proc[i]
    {
      assert forall j :: i < j < |c.titles| ==> c.titles[j] == c.titles[i + 1..][j - i - 1];
      FilledAt(fixed, c.titles, proc, i);
    }
  }

  lemma {:induction false} FilledKeys(row: Row, titles: seq<string>, proc: seq<string>)
    requires |proc| >= |titles|
    ensures forall title :: title in Filled(row, titles, proc) <==> title in titles || title in row
  {
    if titles != [] {
      var n := |titles| - 1;
      FilledKeys(row, titles[..n], proc);
      assert titles == titles[..n] + [titles[n]];
    }
  }

  /** The number of processes in the first k containers. */
  function Processes(containers: seq<Summary>, k: nat): nat
    requires k <= |containers|
  {
    if k == 0 then 0 else Processes(containers, k - 1) + |containers[k - 1].processes|
  }

  /** There is a row for every process, container by container. */
  lemma {:induction false} RowsAre(containers: seq<Summary>, k: nat, j: nat)
    requires forall c <- containers :: c.Valid()
    requires k < |containers| && j < |containers[k].processes|
    ensures |Rows(containers)| == Processes(containers, |containers|)
    ensures var r := Processes(containers, k) + j;
            && r < |Rows(containers)| && containers[k] in containers
            && containers[k].processes[j] in containers[k].processes
            && Rows(containers)[r] == RowOf(containers[k], containers[k].processes[j])
  {
    hide RowOf;
    var n := |containers| - 1;
    RowsSize(containers);
    RowsSize(containers[..n]);
    ProcessesOf(containers, n);
    if k < n {
      ProcessesOf(containers, k);
      RowsAre(containers[..n], k, j);
    } else {
      LastRows(containers, j);
    }
  }

  lemma LastRows(containers: seq<Summary>, j: nat)
    requires containers != [] && forall c <- containers :: c.Valid()
    requires j < |containers[|containers| - 1].processes|
    ensures var last := containers[|containers| - 1];
            var r := |Rows(containers[..|containers| - 1])| + j;
            && last in containers && last.processes[j] in last.processes
            && r < |Rows(containers)| && Rows(containers)[r] == RowOf(last, last.processes[j])
  {
    hide RowOf;
    RowsOfAt(containers[|containers| - 1], j);
  }

  lemma {:induction false} RowsSize(containers: seq<Summary>)
    requires forall c <- containers :: c.Valid()
    ensures |Rows(containers)| == Processes(containers, |containers|)
  {
    if containers != [] {
      var n := |containers| - 1;
      RowsSize(containers[..n]);
      ProcessesOf(containers, n);
    }
  }

  lemma {:induction false} ProcessesOf(containers: seq<Summary>, k: nat)
    requires k < |containers|
    ensures Processes(containers, k) == Processes(containers[..|containers| - 1], k)
  {
    if k > 0 {
      ProcessesOf(containers, k - 1);
    }
  }

  // ---- collectTop ----

  /** One process: its titles are numbered if they are new. */
  method Collect(before: Header, ghost columns: seq<string>, c: Summary, proc: seq<string>)
    returns (header: Header, entry: Row)
    requires Numbers(before, columns) && |proc| >= |c.titles|
    ensures Numbers(header, Noted(columns, c.titles)) && entry == RowOf(c, proc)
  {
    header := before;
    entry := map["SERVICE" := c.service, "#" := c.replica];
    for i := 0 to |c.titles|
      invariant Numbers(header, Noted(columns, c.titles[..i]))
      invariant entry == Filled(map["SERVICE" := c.service, "#" := c.replica], c.titles[..i], proc)
    {
      var title := c.titles[i];
      assert c.titles[..i + 1][..i] == c.titles[..i];
      if title !in header {
        NumbersMore(header, Noted(columns, c.titles[..i]), title);
        header := header[title := |header|];
      }
      entry := entry[title := proc[i]];
    }
    assert c.titles[..|c.titles|] == c.titles;
  }

  lemma RowsOfSize(c: Summary)
    requires c.Valid()
    ensures |RowsOf(c)| == |c.processes|
  {
  }

  lemma RowsOfAt(c: Summary, j: nat)
    requires c.Valid() && j < |c.processes|
    ensures |RowsOf(c)| == |c.processes| && c.processes[j] in c.processes
    ensures RowsOf(c)[..j + 1] == RowsOf(c)[..j] + [RowOf(c, c.processes[j])]
  {
  }

  /** The processes of one container. */
  method CollectContainer(before: Header, ghost columns: seq<string>, c: Summary)
    returns (header: Header, entries: seq<Row>)
    requires Numbers(before, columns) && c.Valid()
    ensures Numbers(header, if c.processes == [] then columns else Noted(columns, c.titles))
    ensures entries == RowsOf(c)
  {
    hide Noted, Numbers, RowOf, RowsOf;
    header, entries := before, [];
    ghost var current := columns;
    RowsOfSize(c);
    for j := 0 to |c.processes|
      invariant Numbers(header, current) && current == if j == 0 then columns else Noted(columns, c.titles)
      invariant entries == RowsOf(c)[..j]
    {
      RowsOfAt(c, j);
      NotedAgain(columns, c.titles);
      var entry;
      header, entry := Collect(header, current, c, c.processes[j]);
      current := Noted(current, c.titles);
      entries := entries + [entry];
    }
  }

  method CollectTop(containers: seq<Summary>) returns (header: Header, entries: seq<Row>)
    requires forall c <- containers :: c.Valid()
    ensures Numbers(header, CmdLast(Columns(containers)))
    ensures entries == Rows(containers)
  {
    header, entries := map["SERVICE" := 0, "#" := 1], [];
    for k := 0 to |containers|
      invariant Numbers(header, Columns(containers[..k]))
      invariant entries == Rows(containers[..k])
    {
      assert containers[..k + 1][..k] == containers[..k];
      var rows;
      header, rows := CollectContainer(header, Columns(containers[..k]), containers[k]);
      entries := entries + rows;
    }
    assert containers[..|containers|] == containers;
    if "CMD" in header {
      header := MoveCmd(header, Columns(containers));
    }
  }

  /** The rotation in place: the position of CMD is free, so the numbers beyond
      it move down by one. */
  method MoveCmd(before: Header, ghost columns: seq<string>) returns (header: Header)
    requires Numbers(before, columns) && "CMD" in before
    ensures Numbers(header, CmdLast(columns))
  {
    header := before;
    var pos := header["CMD"];
    var maxPos, todo := pos, header.Keys;
    while todo != {}
      invariant todo <= before.Keys == header.Keys
      invariant forall h <- before :: header[h] == if h !in todo && before[h] > pos then before[h] - 1 else before[h]
      invariant forall h <- before.Keys - todo :: before[h] <= maxPos
      invariant exists h <- before :: before[h] == maxPos
    {
      var h :| h in todo;
      todo := todo - {h};
      var i := header[h];
      if i > maxPos {
        maxPos := i;
      }
      if i > pos {
        header := header[h := i - 1];
      }
    }
    header := header["CMD" := maxPos];
    MaxIsLast(before, columns, maxPos);
    Rotated(before, columns, header);
  }

  // ---- topPrint ----

  /** Every slot of a line is written once; without rows nothing is printed. */
  method TopPrint(headers: Header, rows: seq<Row>, ghost columns: seq<string>) returns (lines: seq<seq<string>>)
    requires Numbers(headers, columns)
    ensures rows == [] ==> lines == []
    ensures rows != [] ==> |lines| == 1 + |rows| && lines[0] == columns
    ensures forall k :: 0 <= k < |rows| ==> lines[k + 1] == Cells(rows[k], columns)
    ensures forall k :: 0 <= k < |rows| ==> CellsAre(rows[k], columns, lines[k + 1])
  {
    if rows == [] {
      return [];
    }
    hide Numbers, Cells;
    var first := Line(headers, map h | h in headers :: h, columns);
    HeaderLine(headers, columns);
    lines := [first];
    for k := 0 to |rows|
      invariant |lines| == k + 1 && lines[0] == columns
      invariant forall r :: 1 <= r < |lines| ==> lines[r] == Cells(rows[r - 1], columns)
    {
      var line := Line(headers, rows[k], columns);
      lines := lines + [line];
    }
    forall k | 0 <= k < |rows| ensures CellsAre(rows[k], columns, lines[k + 1]) {
      CellsHold(rows[k], columns);
    }
  }

  ghost predicate CellsAre(row: Row, columns: seq<string>, line: seq<string>) {
    && |line| == |columns|
    && forall i :: 0 <= i < |columns| ==> line[i] == if columns[i] in row then row[columns[i]] else "-"
  }

  lemma CellsHold(row: Row, columns: seq<string>)
    ensures CellsAre(row, columns, Cells(row, columns))
  {
  }

  function Cells(row: Row, columns: seq<string>): seq<string> {
    seq(|columns|, i requires 0 <= i < |columns| => if columns[i] in row then row[columns[i]] else "-")
  }

  lemma HeaderLine(headers: Header, columns: seq<string>)
    requires Numbers(headers, columns)
    ensures Cells(map h | h in headers :: h, columns) == columns
  {
  }

  /** One line, filled slot by slot in the order of the map. */
  method Line(headers: Header, row: Row, ghost columns: seq<string>) returns (line: seq<string>)
    requires Numbers(headers, columns)
    ensures line == Cells(row, columns)
  {
    SizeOf(headers, columns);
    var r := new string[|headers|];
    var todo := headers.Keys;
    while todo != {}
      invariant todo <= headers.Keys
      invariant forall i :: 0 <= i < |columns| && columns[i] !in todo ==> r[i] == Cells(row, columns)[i]
    {
      var title :| title in todo;
      todo := todo - {title};
      var i := headers[title];
      assert title in columns;
      r[i] := if title in row then row[title] else "-";
    }
    line := r[..];
  }

  // ---- lemmas ----

  lemma {:induction false} SizeOf(header: Header, columns: seq<string>)
    requires Numbers(header, columns)
    ensures |header| == |columns|
  {
    if columns == [] {
      assert header == map[];
    } else {
      var n := |columns| - 1;
      var fewer := header - {columns[n]};
      assert columns == columns[..n] + [columns[n]];
      SizeOf(fewer, columns[..n]);
      assert fewer.Keys == header.Keys - {columns[n]};
      assert |fewer.Keys| == |header.Keys| - 1;
    }
  }

  lemma NumbersMore(header: Header, columns: seq<string>, title: string)
    requires Numbers(header, columns) && title !in header
    ensures Numbers(header[title := |header|], columns + [title])
  {
    SizeOf(header, columns);
    DistinctEnds(columns, title);
  }

  lemma {:induction false} NotedHolds(columns: seq<string>, titles: seq<string>)
    ensures forall t <- titles :: t in Noted(columns, titles)
    ensures columns <= Noted(columns, titles)
  {
    if titles != [] {
      var n := |titles| - 1;
      NotedHolds(columns, titles[..n]);
      assert titles == titles[..n] + [titles[n]];
    }
  }

  lemma {:induction false} NothingNew(columns: seq<string>, titles: seq<string>)
    requires forall t <- titles :: t in columns
    ensures Noted(columns, titles) == columns
  {
    if titles != [] {
      var n := |titles| - 1;
      assert titles[n] in titles;
      NothingNew(columns, titles[..n]);
    }
  }

  /** A second process of the container adds no column. */
  lemma NotedAgain(columns: seq<string>, titles: seq<string>)
    ensures Noted(Noted(columns, titles), titles) == Noted(columns, titles)
  {
    NotedHolds(columns, titles);
    NothingNew(Noted(columns, titles), titles);
  }

  lemma {:induction false} NotedIff(columns: seq<string>, titles: seq<string>, title: string)
    ensures title in Noted(columns, titles) <==> title in columns || title in titles
  {
    if titles != [] {
      var n := |titles| - 1;
      assert titles == titles[..n] + [titles[n]];
      NotedIff(columns, titles[..n], title);
    }
  }

  /** The columns: the two fixed ones, and the titles of the containers that
      have processes. */
  lemma {:induction false} ColumnsIff(containers: seq<Summary>, title: string)
    ensures title in Columns(containers) <==>
              title in ["SERVICE", "#"] || exists c <- containers :: c.processes != [] && title in c.titles
  {
    if containers != [] {
      var n := |containers| - 1;
      assert containers == containers[..n] + [containers[n]];
      ColumnsIff(containers[..n], title);
      NotedIff(Columns(containers[..n]), containers[n].titles, title);
    }
  }

  /** New titles get their columns in their order. */
  lemma {:induction false} NotedGrows(columns: seq<string>, titles: seq<string>, i: nat)
    requires i <= |titles|
    ensures columns <= Noted(columns, titles[..i]) <= Noted(columns, titles)
    ensures i < |titles| && titles[i] !in Noted(columns, titles[..i]) ==>
              Noted(columns, titles[..i]) + [titles[i]] <= Noted(columns, titles)
    decreases |titles|
  {
    NotedHolds(columns, titles[..i]);
    if i == |titles| {
      assert titles[..i] == titles;
    } else {
      var n := |titles| - 1;
      NotedGrows(columns, titles[..n], i);
      assert titles[..n][..i] == titles[..i];
    }
  }

  /** Later containers add columns at the end, behind the two fixed ones. */
  lemma {:induction false} ColumnsGrow(containers: seq<Summary>, k: nat)
    requires k <= |containers|
    ensures ["SERVICE", "#"] <= Columns(containers[..k]) <= Columns(containers)
    decreases |containers|
  {
    if k == |containers| {
      assert containers[..k] == containers;
      if k > 0 {
        ColumnsGrow(containers[..k - 1], 0);
        NotedHolds(Columns(containers[..k - 1]), containers[k - 1].titles);
      }
    } else {
      var n := |containers| - 1;
      ColumnsGrow(containers[..n], k);
      assert containers[..n][..k] == containers[..k];
      NotedHolds(Columns(containers[..n]), containers[n].titles);
    }
  }

  /** The table starts with the two fixed columns and ends with CMD, if there is
      such a column. */
  lemma HeaderIs(containers: seq<Summary>)
    ensures var columns := CmdLast(Columns(containers));
            && ["SERVICE", "#"] <= columns
            && ("CMD" in Columns(containers) ==> columns[|columns| - 1] == "CMD")
            && forall title :: title in columns <==> title in Columns(containers)
  {
    ColumnsGrow(containers, 0);
    OthersStart(Columns(containers));
    forall title | title in Columns(containers) && title != "CMD" ensures title in Others(Columns(containers)) {
      OthersHold(Columns(containers), title);
    }
    OthersAreColumns(Columns(containers));
  }

  lemma {:induction false} OthersStart(columns: seq<string>)
    requires ["SERVICE", "#"] <= columns
    ensures ["SERVICE", "#"] <= Others(columns)
  {
    if |columns| > 2 {
      OthersStart(columns[..|columns| - 1]);
    } else {
      assert columns == ["SERVICE", "#"] && columns[..1] == ["SERVICE"] && columns[..1][..0] == [];
      assert Others(["SERVICE"]) == ["SERVICE"];
    }
  }

  lemma {:induction false} OthersAreColumns(columns: seq<string>)
    ensures forall title <- Others(columns) :: title in columns
  {
    if columns != [] {
      OthersAreColumns(columns[..|columns| - 1]);
    }
  }

  lemma {:induction false} OthersAll(columns: seq<string>)
    requires "CMD" !in columns
    ensures Others(columns) == columns
  {
    if columns != [] {
      var n := |columns| - 1;
      assert columns == columns[..n] + [columns[n]];
      OthersAll(columns[..n]);
    }
  }

  lemma {:induction false} OthersAt(columns: seq<string>, pos: nat)
    requires Distinct(columns) && pos < |columns| && columns[pos] == "CMD"
    ensures Others(columns) == columns[..pos] + columns[pos + 1..]
  {
    var n := |columns| - 1;
    if pos == n {
      OthersAll(columns[..n]);
    } else {
      OthersAt(columns[..n], pos);
      assert columns[pos + 1..] == columns[..n][pos + 1..] + [columns[n]];
    }
  }

  lemma MaxIsLast(header: Header, columns: seq<string>, maxPos: int)
    requires Numbers(header, columns) && header != map[]
    requires (forall h <- header :: header[h] <= maxPos) && exists h <- header :: header[h] == maxPos
    ensures maxPos == |columns| - 1
  {
    var h :| h in header && header[h] == maxPos;
    assert h in columns;
    assert header[columns[|columns| - 1]] == |columns| - 1;
  }

  /** CmdLast only moves columns: from where each of them comes. */
  lemma CmdLastMoves(columns: seq<string>, pos: nat, i: nat) returns (k: nat)
    requires Distinct(columns) && pos < |columns| && columns[pos] == "CMD" && i < |columns|
    ensures k == if i < pos then i else if i < |columns| - 1 then i + 1 else pos
    ensures |CmdLast(columns)| == |columns| && CmdLast(columns)[i] == columns[k]
  {
    OthersAt(columns, pos);
    assert CmdLast(columns) == columns[..pos] + columns[pos + 1..] + ["CMD"];
    k := if i < pos then i else if i < |columns| - 1 then i + 1 else pos;
  }

  /** What the rotation in place makes of the numbers. */
  ghost predicate Shifted(before: Header, header: Header, n: int) {
    && "CMD" in before && header.Keys == before.Keys
    && forall h <- before :: header[h] ==
         if h == "CMD" then n - 1 else if before[h] > before["CMD"] then before[h] - 1 else before[h]
  }

  lemma ShiftedAt(before: Header, columns: seq<string>, header: Header, i: nat)
    requires Numbers(before, columns) && Shifted(before, header, |columns|) && i < |columns|
    ensures |CmdLast(columns)| == |columns| && CmdLast(columns)[i] in header && header[CmdLast(columns)[i]] == i
  {
    var pos := before["CMD"];
    assert "CMD" in columns;
    var k := CmdLastMoves(columns, pos, i);
    hide CmdLast;
    var h := columns[k];
    assert h in columns && before[h] == k && (h == "CMD" ==> k == pos);
  }

  lemma ShiftedHolds(before: Header, columns: seq<string>, header: Header, title: string)
    requires Numbers(before, columns) && Shifted(before, header, |columns|) && title in before
    ensures title in CmdLast(columns)
  {
    assert "CMD" in columns && title in columns;
    if title != "CMD" {
      OthersHold(columns, title);
    }
  }

  lemma {:induction false} OthersHold(columns: seq<string>, title: string)
    requires title in columns && title != "CMD"
    ensures title in Others(columns)
  {
    var n := |columns| - 1;
    if title != columns[n] {
      OthersHold(columns[..n], title);
    }
  }

  lemma Rotated(before: Header, columns: seq<string>, header: Header)
    requires Numbers(before, columns) && Shifted(before, header, |columns|)
    ensures Numbers(header, CmdLast(columns))
  {
    var rotated := CmdLast(columns);
    ShiftedAt(before, columns, header, 0);
    forall i | 0 <= i < |rotated| ensures rotated[i] in header && header[rotated[i]] == i {
      ShiftedAt(before, columns, header, i);
    }
    forall title <- before ensures title in rotated {
      ShiftedHolds(before, columns, header, title);
    }
    hide CmdLast, Shifted;
  }
}
