/** Minimal roots of a list of paths (internal/paths/paths.go), for absolute,
    clean paths, on which filepath.Clean is the identity. */
module Paths {
  import opened Texts

  /** A name between two slashes of a clean path. */
  predicate Component(s: string) {
    s != "" && '/' !in s && s != "." && s != ".."
  }

  function Print(components: seq<string>): string {
    "/" + Join(components, '/')
  }

  function Components(path: string): seq<string> {
    if |path| <= 1 then [] else Split(path[1..], '/')
  }

  predicate CleanAbs(path: string) {
    path != "" && path[0] == '/' && forall c <- Components(path) :: Component(c)
  }

  function LastSlash(path: string): nat {
    if path == "" || path[|path| - 1] == '/' then |path| else LastSlash(path[..|path| - 1])
  }

  /** filepath.Dir on absolute, clean paths: what precedes the last slash. */
  function Dir(path: string): string {
    var i := LastSlash(path);
    if 2 <= i <= |path| then path[..i - 1] else "/"
  }

  /** strings.EqualFold, and whether os.Stat finds one file under both names. */
  datatype FileSystem = FileSystem(equalFold: (string, string) -> bool, sameFile: (string, string) -> bool) {
    ghost predicate Valid() {
      forall s :: equalFold(s, s)
    }

    /** No directory on the way to file is spelled like dir but for its case. */
    ghost predicate NoClash(dir: string, file: string) {
      forall a | CleanAbs(a) && Covers(a, file) && equalFold(dir, a) :: dir == a
    }
  }

  /** Component by component, dir is a prefix of file. */
  predicate Covers(dir: string, file: string) {
    Components(dir) <= Components(file)
  }

  /** On clean paths: it is the root, the file itself, or followed by a slash. */
  lemma CoversIff(dir: string, file: string)
    requires CleanAbs(dir) && CleanAbs(file)
    ensures Covers(dir, file) <==> dir == "/" || dir == file || dir + "/" <= file
  {
    if dir != "/" && dir + "/" <= file {
      SplitsBelow(dir, file);
    }
    SameComponents(dir, file);
    if Covers(dir, file) && Components(dir) != Components(file) && dir != "/" {
      PrintsBelow(dir, file);
    }
  }

  lemma SplitsBelow(dir: string, file: string)
    requires CleanAbs(dir) && CleanAbs(file) && dir != "/" && dir + "/" <= file
    ensures Components(dir) <= Components(file)
  {
    var rest := file[|dir| + 1..];
    assert file[1..] == dir[1..] + "/" + rest;
    SplitBoth(dir[1..], rest, '/');
  }

  lemma PrintsBelow(dir: string, file: string)
    requires CleanAbs(dir) && CleanAbs(file) && dir != "/"
    requires Components(dir) <= Components(file) && Components(dir) != Components(file)
    ensures dir + "/" <= file
  {
    var ds, cs := Components(dir), Components(file);
    PrintComponents(dir);
    PrintComponents(file);
    assert |dir| > 1 && ds != [];
    var rest := cs[|ds|..];
    assert cs == ds + rest;
    hide CleanAbs, Components;
    JoinBoth(ds, rest, '/');
    assert file == dir + "/" + Join(rest, '/');
  }

  // ---- clean paths and their components ----

  lemma PrintComponents(path: string)
    requires CleanAbs(path)
    ensures Print(Components(path)) == path
  {
    if |path| > 1 {
      JoinSplit(path[1..], '/');
    }
  }

  lemma ComponentsPrint(cs: seq<string>)
    requires forall c <- cs :: Component(c)
    ensures Components(Print(cs)) == cs && CleanAbs(Print(cs))
  {
    if cs != [] {
      SplitJoin(cs, '/');
      assert Print(cs)[1..] == Join(cs, '/');
      assert cs[0] in cs;
    }
  }

  /** A clean path is determined by its components. */
  lemma SameComponents(a: string, b: string)
    requires CleanAbs(a) && CleanAbs(b)
    ensures Components(a) == Components(b) ==> a == b
  {
    PrintComponents(a);
    PrintComponents(b);
  }

  lemma {:induction false} LastSlashOf(s: string, word: string)
    requires '/' !in word && s != "" && s[|s| - 1] == '/'
    ensures LastSlash(s + word) == |s|
  {
    if word == "" {
      assert s + word == s;
    } else {
      var n := |word| - 1;
      assert (s + word)[..|s + word| - 1] == s + word[..n];
      LastSlashOf(s, word[..n]);
    }
  }

  /** Dir drops the last component, and the path gets shorter. */
  lemma DirDropsLast(path: string)
    requires CleanAbs(path) && |path| > 1
    ensures CleanAbs(Dir(path)) && |Dir(path)| < |path|
    ensures Components(path) != [] && Components(Dir(path)) == Components(path)[..|Components(path)| - 1]
  {
    var cs := Components(path);
    var n := |cs| - 1;
    PrintComponents(path);
    assert cs[n] in cs && forall c <- cs[..n] :: c in cs;
    ComponentsPrint(cs[..n]);
    hide Components, CleanAbs, Dir, Print;
    DirOfPrinted(cs);
  }

  lemma DirOfPrinted(cs: seq<string>)
    requires cs != [] && forall c <- cs :: Component(c)
    ensures Dir(Print(cs)) == Print(cs[..|cs| - 1]) && |Print(cs[..|cs| - 1])| < |Print(cs)|
  {
    var n := |cs| - 1;
    assert cs[n] in cs;
    if n == 0 {
      DirOfJoined("", cs[0]);
      assert Print(cs) == "" + "/" + cs[0] && cs[..0] == [];
    } else {
      JoinLast(cs, '/');
      assert Print(cs) == Print(cs[..n]) + "/" + cs[n];
      assert cs[..n][0] in cs;
      PrintLonger(cs[..n]);
      DirOfJoined(Print(cs[..n]), cs[n]);
    }
  }

  lemma PrintLonger(cs: seq<string>)
    requires cs != [] && cs[0] != ""
    ensures |Print(cs)| > 1
  {
  }

  lemma DirOfJoined(dir: string, word: string)
    requires '/' !in word && |dir| != 1
    ensures Dir(dir + "/" + word) == if dir == "" then "/" else dir
  {
    LastSlashOf(dir + "/", word);
    assert (dir + "/" + word)[..|dir|] == dir;
  }

  /** A directory is shorter than what it contains. */
  lemma {:induction false} CoversLonger(dir: string, file: string)
    requires CleanAbs(dir) && CleanAbs(file) && Covers(dir, file)
    ensures dir == file || |dir| < |file|
    decreases |file|
  {
    SameComponents(dir, file);
    if dir != file {
      assert |file| > 1;
      DirDropsLast(file);
      CoversLonger(dir, Dir(file));
    }
  }

  // ---- IsChild ----

  /** Walking upwards and comparing strings, with the cut-off by length, decides
      whether dir is a component prefix of file. */
  method IsChild(fs: FileSystem, dir: string, file: string) returns (b: bool)
    requires fs.Valid() && CleanAbs(file) && (dir == "" || (CleanAbs(dir) && fs.NoClash(dir, file)))
    ensures b <==> dir != "" && Covers(dir, file)
  {
    if dir == "" {
      return false;
    }
    var current := file;
    while true
      invariant CleanAbs(current) && Covers(current, file)
      invariant Covers(dir, file) <==> Covers(dir, current)
      decreases |current|
    {
      if fs.equalFold(dir, current) {
        if dir == current {
          return true;
        }
        return fs.sameFile(dir, current);
      }
      if Covers(dir, current) {
        CoversLonger(dir, current);
      }
      if |current| <= |dir| || current == "." {
        return false;
      }
      DirDropsLast(current);
      SameComponents(dir, current);
      current := Dir(current);
    }
  }

  // ---- EncompassingPaths ----

  /** Only itself, among the paths, covers it. */
  predicate Minimal(paths: seq<string>, p: string) {
    p in paths && forall q <- paths :: Covers(q, p) ==> q == p
  }

  /** x occurs before the first y does. */
  ghost predicate Before(paths: seq<string>, x: string, y: string) {
    exists k :: 0 <= k < |paths| && paths[k] == x && y !in paths[..k + 1]
  }

  ghost predicate InOrder(paths: seq<string>, result: seq<string>) {
    forall i, j :: 0 <= i < j < |result| ==> Before(paths, result[i], result[j])
  }

  /** The minimal ones among the paths, each once, in the order in which they
      occur first. */
  ghost predicate AreRoots(paths: seq<string>, result: seq<string>) {
    (forall p :: p in result <==> Minimal(paths, p)) && InOrder(paths, result)
  }

  ghost predicate Antichain(result: seq<string>) {
    forall i, j :: 0 <= i < |result| && 0 <= j < |result| && i != j ==> !Covers(result[i], result[j])
  }

  /** What the loop keeps. */
  ghost predicate Encompass(paths: seq<string>, result: seq<string>) {
    && (forall r <- result :: r in paths)
    && AllCovered(paths, result) && Antichain(result) && InOrder(paths, result)
  }

  ghost predicate AllCovered(paths: seq<string>, result: seq<string>) {
    forall p <- paths :: exists r <- result :: Covers(r, p)
  }

  /** The paths that are not below x. */
  function Outside(x: string, s: seq<string>): seq<string> {
    if s == [] then []
    else
      var last := s[|s| - 1];
      Outside(x, s[..|s| - 1]) + if Covers(x, last) then [] else [last]
  }

  lemma {:induction false} OutsideMembers(x: string, s: seq<string>, p: string)
    ensures p in Outside(x, s) <==> p in s && !Covers(x, p)
  {
    if s != [] {
      assert p in s <==> p in s[..|s| - 1] || p == s[|s| - 1];
      OutsideMembers(x, s[..|s| - 1], p);
    }
  }

  function NonEmpty(s: seq<string>): seq<string> {
    if s == [] then []
    else
      var last := s[|s| - 1];
      NonEmpty(s[..|s| - 1]) + if last == "" then [] else [last]
  }

  /** What the body of the loop does to the result. */
  function Included(result: seq<string>, current: string): seq<string> {
    if exists r <- result :: Covers(r, current) then result else Outside(current, result) + [current]
  }

  method EncompassingPaths(fs: FileSystem, paths: seq<string>) returns (result: seq<string>)
    requires fs.Valid() && forall p <- paths :: CleanAbs(p)
    requires forall p <- paths, q <- paths :: fs.NoClash(p, q)
    ensures AreRoots(paths, result)
    ensures AllCovered(paths, result) && Antichain(result)
  {
    hide Encompass, AreRoots, Antichain, AllCovered, CleanAbs, Covers;
    result := [];
    EncompassNone();
    for k := 0 to |paths|
      invariant Encompass(paths[..k], result)
    {
      FitToScan(fs, paths, k, result);
      var next := Include(fs, result, paths[k]);
      assert paths[..k + 1] == paths[..k] + [paths[k]];
      KeepsEncompass(paths[..k], result, paths[k]);
      result := next;
    }
    assert paths[..|paths|] == paths;
    EncompassIsRoots(paths, result);
  }

  lemma EncompassNone()
    ensures Encompass([], [])
  {
  }

  lemma FitToScan(fs: FileSystem, paths: seq<string>, k: nat, result: seq<string>)
    requires fs.Valid() && k < |paths| && Encompass(paths[..k], result)
    requires forall p <- paths :: CleanAbs(p)
    requires forall p <- paths, q <- paths :: fs.NoClash(p, q)
    ensures Antichain(result) && forall i :: 0 <= i < |result| ==> result[i] != "" && Fit(fs, result[i], paths[k])
  {
    hide AllCovered;
    forall i | 0 <= i < |result| ensures Fit(fs, result[i], paths[k]) {
      assert result[i] in paths[..k] && paths[k] in paths;
    }
  }

  /** Two paths that the comparison may be run on. */
  ghost predicate Fit(fs: FileSystem, a: string, b: string) {
    CleanAbs(a) && fs.NoClash(a, b) && fs.NoClash(b, a)
  }

  /** The entries below current are blanked; current is covered if the scan
      stops early. */
  method Scan(fs: FileSystem, before: seq<string>, current: string)
    returns (result: seq<string>, isCovered: bool, hasRemovals: bool)
    requires fs.Valid() && CleanAbs(current) && Antichain(before)
    requires forall i :: 0 <= i < |before| ==> Fit(fs, before[i], current)
    ensures isCovered <==> exists r <- before :: Covers(r, current)
    ensures isCovered ==> result == before && !hasRemovals
    ensures !isCovered ==> result == Blanked(before, current)
    ensures hasRemovals <==> !isCovered && exists r <- before :: Covers(current, r)
  {
    isCovered, hasRemovals := false, false;
    result := before;
    for i := 0 to |before|
      invariant |result| == |before|
      invariant forall j :: 0 <= j < i ==> result[j] == Blanked(before, current)[j]
      invariant forall j :: i <= j < |before| ==> result[j] == before[j]
      invariant !isCovered && forall j :: 0 <= j < i ==> !Covers(before[j], current)
      invariant hasRemovals <==> exists j :: 0 <= j < i && Covers(current, before[j])
    {
      var existing := result[i];
      assert before[i] in before;
      var covered := IsChild(fs, existing, current);
      if covered {
        NothingBelow(before, i, current);
        isCovered := true;
        break;
      }
      var covers := IsChild(fs, current, existing);
      if covers {
        result := result[i := ""];
        hasRemovals := true;
      }
    }
  }

  /** The marking of what is below current. */
  function Blanked(before: seq<string>, current: string): seq<string> {
    seq(|before|, j requires 0 <= j < |before| => if Covers(current, before[j]) then "" else before[j])
  }

  lemma NothingBelow(before: seq<string>, i: nat, current: string)
    requires Antichain(before) && i < |before| && Covers(before[i], current)
    requires forall j :: 0 <= j < i ==> !Covers(before[j], current)
    ensures forall j :: 0 <= j < i ==> !Covers(current, before[j])
    ensures Blanked(before, current)[..i] == before[..i]
  {
  }

  /** The loop that removes the blanked entries. */
  method RemoveEmpties(s: seq<string>) returns (newResult: seq<string>)
    ensures newResult == NonEmpty(s)
  {
    newResult := [];
    for i := 0 to |s|
      invariant newResult == NonEmpty(s[..i])
    {
      assert s[..i + 1][..i] == s[..i];
      if s[i] != "" {
        newResult := newResult + [s[i]];
      }
    }
    assert s[..|s|] == s;
  }

  /** The body of the loop over the paths. */
  method Include(fs: FileSystem, before: seq<string>, current: string) returns (result: seq<string>)
    requires fs.Valid() && CleanAbs(current) && Antichain(before)
    requires forall i :: 0 <= i < |before| ==> before[i] != "" && Fit(fs, before[i], current)
    ensures result == Included(before, current)
  {
    hide Blanked, NonEmpty, Covers;
    var isCovered, hasRemovals;
    result, isCovered, hasRemovals := Scan(fs, before, current);
    if !isCovered {
      Rebuilt(before, current);
      result := result + [current];
    }
    if hasRemovals {
      result := RemoveEmpties(result);
    } else if !isCovered {
      NothingBlanked(before, current);
    }
  }

  lemma Rebuilt(before: seq<string>, current: string)
    requires current != "" && forall i :: 0 <= i < |before| ==> before[i] != ""
    ensures NonEmpty(Blanked(before, current) + [current]) == Outside(current, before) + [current]
  {
    hide Outside, Covers, Blanked;
    Removed(before, current);
    assert (Blanked(before, current) + [current])[..|Blanked(before, current)|] == Blanked(before, current);
  }

  lemma NothingBlanked(before: seq<string>, current: string)
    requires forall i :: 0 <= i < |before| ==> before[i] != "" && !Covers(current, before[i])
    ensures Blanked(before, current) == before == Outside(current, before)
  {
    hide Outside, Covers;
    Removed(before, current);
  }

  /** Removing the marked entries leaves what is outside. */
  lemma {:induction false} Removed(before: seq<string>, current: string)
    requires forall i :: 0 <= i < |before| ==> before[i] != ""
    ensures NonEmpty(Blanked(before, current)) == Outside(current, before)
    ensures (forall i :: 0 <= i < |before| ==> !Covers(current, before[i])) ==> Outside(current, before) == before
  {
    hide Covers;
    if before != [] {
      var n := |before| - 1;
      var blanked := Blanked(before, current);
      Removed(before[..n], current);
      assert blanked[..n] == Blanked(before[..n], current);
      assert before == before[..n] + [before[n]];
    }
  }

  lemma {:induction false} OutsideInOrder(paths: seq<string>, x: string, s: seq<string>)
    requires InOrder(paths, s)
    ensures InOrder(paths, Outside(x, s))
  {
    if s != [] {
      var n := |s| - 1;
      OutsideInOrder(paths, x, s[..n]);
      forall r <- Outside(x, s[..n]) ensures Before(paths, r, s[n]) {
        OutsideMembers(x, s[..n], r);
      }
    }
  }

  lemma BeforeMore(paths: seq<string>, current: string, x: string, y: string)
    requires Before(paths, x, y) || (x in paths && y == current && current !in paths)
    ensures Before(paths + [current], x, y)
  {
    var k :| 0 <= k < |paths| && paths[k] == x && y !in paths[..k + 1];
    assert (paths + [current])[k] == x && (paths + [current])[..k + 1] == paths[..k + 1];
  }

  lemma InOrderMore(paths: seq<string>, current: string, result: seq<string>)
    requires InOrder(paths, result)
    ensures InOrder(paths + [current], result)
  {
    forall i, j | 0 <= i < j < |result| ensures Before(paths + [current], result[i], result[j]) {
      BeforeMore(paths, current, result[i], result[j]);
    }
  }

  lemma Appended(paths: seq<string>, current: string, result: seq<string>)
    requires InOrder(paths + [current], result) && current !in paths
    requires forall i :: 0 <= i < |result| ==> result[i] in paths
    ensures InOrder(paths + [current], result + [current])
  {
    forall i | 0 <= i < |result| ensures Before(paths + [current], result[i], current) {
      BeforeMore(paths, current, result[i], current);
    }
    hide Before;
  }

  lemma IncludedInOrder(paths: seq<string>, result: seq<string>, current: string)
    requires Encompass(paths, result)
    ensures InOrder(paths + [current], Included(result, current))
  {
    hide InOrder, AllCovered, Antichain, Covers;
    InOrderMore(paths, current, result);
    if !exists r <- result :: Covers(r, current) {
      var rest := Outside(current, result);
      OutsideInOrder(paths + [current], current, result);
      forall i | 0 <= i < |rest| ensures rest[i] in paths {
        OutsideMembers(current, result, rest[i]);
      }
      NotCoveredIsNew(paths, result, current);
      Appended(paths, current, rest);
    }
  }

  lemma NotCoveredIsNew(paths: seq<string>, result: seq<string>, current: string)
    requires AllCovered(paths, result) && !exists r <- result :: Covers(r, current)
    ensures current !in paths
  {
  }

  lemma IncludedCovers(paths: seq<string>, result: seq<string>, current: string, p: string)
    requires AllCovered(paths, result)
    requires p in paths || p == current
    ensures exists r <- Included(result, current) :: Covers(r, p)
  {
    if p in paths {
      var r :| r in result && Covers(r, p);
      OutsideMembers(current, result, r);
      if r !in Included(result, current) {
        assert Covers(current, p) && current in Included(result, current);
      }
    } else if !exists r <- result :: Covers(r, current) {
      assert current in Included(result, current);
    }
  }

  lemma {:induction false} OutsideAntichain(x: string, s: seq<string>)
    requires Antichain(s)
    ensures Antichain(Outside(x, s))
  {
    hide Covers;
    if s != [] {
      var n := |s| - 1;
      OutsideAntichain(x, s[..n]);
      forall r <- Outside(x, s[..n]) ensures !Covers(r, s[n]) && !Covers(s[n], r) {
        OutsideMembers(x, s[..n], r);
        var i :| 0 <= i < n && s[i] == r;
      }
    }
  }

  lemma IncludedAntichain(result: seq<string>, current: string)
    requires Antichain(result)
    ensures Antichain(Included(result, current))
  {
    OutsideAntichain(current, result);
    forall r <- Outside(current, result) ensures r in result && !Covers(current, r) {
      OutsideMembers(current, result, r);
    }
  }

  lemma KeepsEncompass(paths: seq<string>, result: seq<string>, current: string)
    requires Encompass(paths, result)
    ensures Encompass(paths + [current], Included(result, current))
  {
    hide Included, InOrder, Antichain, AllCovered;
    IncludedInOrder(paths, result, current);
    IncludedAntichain(result, current);
    IncludedIsFrom(paths, result, current);
    IncludedCoversAll(paths, result, current);
  }

  lemma IncludedIsFrom(paths: seq<string>, result: seq<string>, current: string)
    requires forall r <- result :: r in paths
    ensures forall r <- Included(result, current) :: r in paths + [current]
  {
    hide Covers, Outside;
    forall r <- Included(result, current) ensures r in paths + [current] {
      OutsideMembers(current, result, r);
      assert r in paths || r == current;
    }
  }

  lemma IncludedCoversAll(paths: seq<string>, result: seq<string>, current: string)
    requires AllCovered(paths, result)
    ensures AllCovered(paths + [current], Included(result, current))
  {
    hide Covers, Included;
    forall p <- paths + [current] ensures exists r <- Included(result, current) :: Covers(r, p) {
      assert p in paths || p == current;
      IncludedCovers(paths, result, current, p);
    }
  }

  lemma RootIsMinimal(result: seq<string>, r: string, q: string, p: string)
    requires Antichain(result) && r in result && p in result && CleanAbs(p) && CleanAbs(q)
    requires Covers(r, q) && Covers(q, p)
    ensures q == p
  {
    SameComponents(p, q);
    assert Covers(r, p);
    var i, j :| 0 <= i < |result| && 0 <= j < |result| && result[i] == r && result[j] == p;
    assert i == j;
  }

  lemma EncompassIsRoots(paths: seq<string>, result: seq<string>)
    requires Encompass(paths, result) && forall p <- paths :: CleanAbs(p)
    ensures AreRoots(paths, result)
    ensures AllCovered(paths, result) && Antichain(result)
  {
    forall p ensures p in result <==> Minimal(paths, p) {
      if p in result {
        forall q <- paths | Covers(q, p) ensures q == p {
          var r :| r in result && Covers(r, q);
          RootIsMinimal(result, r, q, p);
        }
      }
    }
    hide CleanAbs, Covers, InOrder, Antichain;
  }
}
