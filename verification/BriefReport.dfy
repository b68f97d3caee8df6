/** The whole brief, and what a reader may rely on in it. */
module BriefReport {
  import opened Common
  import opened Sorting
  import opened Brief
  import opened BriefBound

  function Names(paths: seq<BriefPath>): (names: seq<string>)
    ensures |names| == |paths| && forall i :: 0 <= i < |paths| ==> names[i] == paths[i].path
  {
    seq(|paths|, i requires 0 <= i < |paths| => paths[i].path)
  }

  /** The report before the bound: one record for each path under the scopes that
      the record knows, in order. */
  ghost predicate FullReport(paths: seq<BriefPath>, live: seq<Entry>, scopes: seq<string>) {
    && Sorted(Names(paths))
    && (forall p :: p in Names(paths) <==> Under(p, scopes) && OnRecord(live, p))
    && (forall i :: 0 <= i < |paths| ==> paths[i] == PathReport(live, paths[i].path))
  }

  /** A commit the report rests on: that of a path's verdict, or of a review with
      a finding under the scopes. */
  ghost predicate RestsOn(live: seq<Entry>, scopes: seq<string>, c: string) {
    || c in ReviewCommits(live, scopes)
    || exists p :: VerdictFrom(live, scopes, p, c)
  }

  ghost predicate VerdictFrom(live: seq<Entry>, scopes: seq<string>, p: string, c: string) {
    Under(p, scopes) && Newest(live, p).Some? && Newest(live, p).value.entry.Scan? &&
      Newest(live, p).value.entry.commit == c
  }

  lemma CommitsAfterScans(byPath: map<string, BriefPath>, commits: set<string>, live: seq<Entry>, scopes: seq<string>)
    requires Scanned(byPath, live, scopes) && CommitsOf(byPath, commits)
    ensures forall c :: c in commits <==> exists p :: VerdictFrom(live, scopes, p, c)
  {
    forall p, c
      ensures ScanCommit(byPath, p, c) <==> VerdictFrom(live, scopes, p, c)
    {
      assert Shows(byPath, scopes, p, Newest(live, p));
      NewestIsAScan(live, p);
    }
  }

  lemma NothingTold(byPath: map<string, BriefPath>, live: seq<Entry>, scopes: seq<string>)
    requires Scanned(byPath, live, scopes)
    ensures Reviewed(byPath, byPath, [], scopes)
  {
    forall p ensures Tells(byPath, byPath, scopes, p, Told([], p)) {
      assert Shows(byPath, scopes, p, Newest(live, p));
    }
  }

  lemma PathIsReported(
    byPath: map<string, BriefPath>, base: map<string, BriefPath>, live: seq<Entry>, scopes: seq<string>, p: string)
    requires Scanned(base, live, scopes) && Reviewed(byPath, base, live, scopes)
    ensures p in byPath <==> Under(p, scopes) && OnRecord(live, p)
    ensures p in byPath ==> byPath[p] == PathReport(live, p) && byPath[p].path == p
  {
    assert Shows(base, scopes, p, Newest(live, p));
    assert Tells(byPath, base, scopes, p, Told(live, p));
  }

  method Listing(xs: set<string>) returns (s: seq<string>)
    ensures Sorted(s) && forall x :: x in s <==> x in xs
  {
    s := SortSet(xs);
    assert forall x :: x in Elements(s) <==> x in s;
  }

  method InOrder(byPath: map<string, BriefPath>) returns (paths: seq<BriefPath>)
    requires forall p :: p in byPath ==> byPath[p].path == p
    ensures Sorted(Names(paths)) && forall p :: p in Names(paths) <==> p in byPath
    ensures forall i :: 0 <= i < |paths| ==> paths[i].path in byPath && paths[i] == byPath[paths[i].path]
  {
    var names := Listing(byPath.Keys);
    paths := seq(|names|, i requires 0 <= i < |names| => assert names[i] in names; byPath[names[i]]);
    assert forall i :: 0 <= i < |names| ==> names[i] in names;
    assert Names(paths) == names;
  }

  method Assemble(live: seq<Entry>, scopes: seq<string>)
    returns (repo: string, commits: seq<string>, paths: seq<BriefPath>)
    ensures FullReport(paths, live, scopes)
    ensures Sorted(commits) && forall c :: c in commits <==> RestsOn(live, scopes, c)
    ensures repo == if RepoOf(live, true) != "" then RepoOf(live, true) else RepoOf(live, false)
  {
    var b := new BriefBuilder();
    b.ScanPass(live, scopes);
    ghost var base := b.byPath;
    NothingTold(b.byPath, live, scopes);
    CommitsAfterScans(b.byPath, b.commits, live, scopes);
    b.ReviewPass(live, scopes);
    repo := b.repo;
    commits := Listing(b.commits);
    forall p {
      PathIsReported(b.byPath, base, live, scopes, p);
    }
    paths := InOrder(b.byPath);
  }

  /** The report is one value: nothing in it depends on the order in which a map
      was gone through. */
  lemma FullReportIsUnique(a: seq<BriefPath>, b: seq<BriefPath>, live: seq<Entry>, scopes: seq<string>)
    requires FullReport(a, live, scopes) && FullReport(b, live, scopes)
    ensures a == b
  {
    forall p ensures p in Elements(Names(a)) <==> p in Elements(Names(b)) {
      assert p in Names(a) <==> p in Names(b);
    }
    assert Elements(Names(a)) == Elements(Names(b));
    SortedIsUnique(Names(a), Names(b));
    forall i | 0 <= i < |a| ensures a[i] == b[i] {
      assert Names(a)[i] == Names(b)[i];
    }
  }

  datatype Report = Report(repo: string, commits: seq<string>, paths: seq<BriefPath>, cut: Option<Cut>)

  ghost predicate BoundedReport(short: seq<BriefPath>, cut: Option<Cut>, live: seq<Entry>, scopes: seq<string>,
      maxItems: int)
  {
    exists full :: FullReport(full, live, scopes) && Bounded(short, cut, full, maxItems)
  }

  method BuildBrief(live: seq<Entry>, scopes: seq<string>, maxItems: int) returns (b: Report)
    ensures BoundedReport(b.paths, b.cut, live, scopes, maxItems)
    ensures Sorted(b.commits) && forall c :: c in b.commits <==> RestsOn(live, scopes, c)
    ensures b.repo == if RepoOf(live, true) != "" then RepoOf(live, true) else RepoOf(live, false)
  {
    var repo, commits, full := Assemble(live, scopes);
    var short, cut := Bound(full, maxItems);
    b := Report(repo, commits, short, cut);
  }

  // ---- The cut on the empty path ----

  const GapOnEmpty := Mutant("", "m1", "survived", true)
  const GapOnFile := Mutant("a.go", "m2", "survived", true)

  /** One scan entry with a gap on a row whose recorded path is empty and one on a
      file; the whole repository is asked about. */
  const TwoGaps: seq<Entry> :=
    [Scan("h", "repo", "c", [FileRow("", "audited"), FileRow("a.go", "audited")], [GapOnEmpty, GapOnFile])]

  const TwoGapsReport: seq<BriefPath> := [
    Blank("").(noScan := false, scan := Some(BriefScan("h", "c", "audited")), gaps := [GapOnEmpty]),
    Blank("a.go").(noScan := false, scan := Some(BriefScan("h", "c", "audited")), gaps := [GapOnFile])]

  lemma TwoGapsRows(p: string)
    ensures FirstRow(TwoGaps[0].files, p) ==
            if p == "" then Some(TwoGaps[0].files[0]) else if p == "a.go" then Some(TwoGaps[0].files[1]) else None
    ensures Missed(TwoGaps[0].mutants, p, true) ==
            if p == "" then [GapOnEmpty] else if p == "a.go" then [GapOnFile] else []
    ensures Missed(TwoGaps[0].mutants, p, false) == []
  {
    var e := TwoGaps[0];
    assert e.files[..1] == [e.files[0]] && e.files[..1][..0] == [];
    assert e.mutants[..1] == [GapOnEmpty] && e.mutants[..1][..0] == [];
    assert FirstRow(e.files[..1], p) == if p == "" then Some(e.files[0]) else None;
    assert Missed(e.mutants[..1], p, true) == if p == "" then [GapOnEmpty] else [];
    assert Missed(e.mutants[..1], p, false) == [];
  }

  lemma TwoGapsReported(p: string)
    ensures Under(p, ["."])
    ensures OnRecord(TwoGaps, p) <==> p == "" || p == "a.go"
    ensures p == "" ==> PathReport(TwoGaps, p) == TwoGapsReport[0]
    ensures p == "a.go" ==> PathReport(TwoGaps, p) == TwoGapsReport[1]
  {
    assert ["."][0] == ".";
    TwoGapsRows(p);
    assert TwoGaps[1..] == [];
    assert TwoGaps[0].files[..2] == TwoGaps[0].files;
    assert Newest([], p) == None;
    assert Newest(TwoGaps, p) == ChosenFrom(TwoGaps[0], 2, p);
    assert Told(TwoGaps, p) == Told([], p);
  }

  lemma TwoGapsItems()
    ensures Items(TwoGapsReport) == [Gap("", GapOnEmpty), Gap("a.go", GapOnFile)]
  {
    var one, two := TwoGapsReport[0], TwoGapsReport[1];
    assert TwoGapsReport[..1] == [one] && [one][..0] == [];
    assert ItemsOf(one) == [Gap("", GapOnEmpty)] && ItemsOf(two) == [Gap("a.go", GapOnFile)];
    assert Items([one]) == [Gap("", GapOnEmpty)];
  }

  lemma TwoGapsIsFull()
    ensures FullReport(TwoGapsReport, TwoGaps, ["."])
  {
    assert Names(TwoGapsReport) == ["", "a.go"];
    forall p {
      TwoGapsReported(p);
    }
  }

  /** An empty path left out first is passed over: this is the whole report on that
      record, and when nothing of it may be listed the cut names the later path. */
  lemma EmptyPathIsPassedOver()
    ensures FullReport(TwoGapsReport, TwoGaps, ["."])
    ensures Items(TwoGapsReport)[0].path == "" && FirstNamed(Unlisted(Items(TwoGapsReport), 0)) == "a.go"
  {
    TwoGapsIsFull();
    TwoGapsItems();
    var items := Items(TwoGapsReport);
    assert Unlisted(items, 0) == items && items[1..] == [Gap("a.go", GapOnFile)];
  }

  // ---- Which paths are asked about ----

  /** The components of a path. */
  function Parts(s: string): (ps: seq<string>)
    ensures |ps| > 0
  {
    if s == "" then [""]
    else
      var rest := Parts(s[1..]);
      if s[0] == '/' then [""] + rest else [[s[0]] + rest[0]] + rest[1..]
  }

  /** One path's components begin another's exactly when it is that path, or a
      directory on the way to it. */
  lemma {:induction false} PartsBegin(p: string, file: string)
    ensures Parts(p) <= Parts(file) <==> file == p || p + "/" <= file
    decreases |p|
  {
    if p == "" {
      PartsBeginAtRoot(file);
    } else if file != "" {
      PartsBegin(p[1..], file[1..]);
      PartsShift(p, file);
      WithinShift(p, file);
    } else {
      PartsOfSome(p);
    }
  }

  lemma WithinShift(p: string, file: string)
    requires p != "" && file != ""
    ensures (file == p || p + "/" <= file) <==>
            p[0] == file[0] && (file[1..] == p[1..] || p[1..] + "/" <= file[1..])
  {
    assert p + "/" == [p[0]] + (p[1..] + "/");
    PrefixShift(p + "/", file);
    HeadAndRest(p[0], p[1..], file[0], file[1..]);
    assert p == [p[0]] + p[1..] && file == [file[0]] + file[1..];
  }

  lemma PartsBeginAtRoot(file: string)
    ensures Parts("") <= Parts(file) <==> file == "" || "" + "/" <= file
  {
    assert "" + "/" == "/";
    if file != "" && file[0] != '/' {
      assert Parts(file)[0] == [file[0]] + Parts(file[1..])[0];
    }
  }

  lemma PrefixShift(a: string, b: string)
    requires a != "" && b != ""
    ensures a <= b <==> a[0] == b[0] && a[1..] <= b[1..]
  {
    assert a == [a[0]] + a[1..] && b == [b[0]] + b[1..];
  }

  /** The empty path begins nothing longer: a written path has a part that is not
      empty, or more parts than one. */
  lemma PartsOfSome(p: string)
    requires p != ""
    ensures !(Parts(p) <= Parts(""))
  {
    if p[0] != '/' {
      assert Parts(p)[0] == [p[0]] + Parts(p[1..])[0];
    }
  }

  lemma HeadAndRest<T>(x: T, a: seq<T>, y: T, b: seq<T>)
    ensures [x] + a <= [y] + b <==> x == y && a <= b
    ensures [x] + a == [y] + b <==> x == y && a == b
  {
    var s, t := [x] + a, [y] + b;
    assert s[0] == x && t[0] == y && s[1..] == a && t[1..] == b;
    if x == y && a <= b {
      assert t[..|s|] == [y] + b[..|a|];
    }
    if s <= t {
      assert a == t[..|s|][1..] == b[..|a|];
    }
  }

  /** The first component grows by the character before it. */
  lemma PartsOfName(c: char, rest: string)
    requires c != '/'
    ensures Parts([c] + rest) == [[c] + Parts(rest)[0]] + Parts(rest)[1..]
    ensures Parts(rest) == [Parts(rest)[0]] + Parts(rest)[1..]
  {
    assert ([c] + rest)[1..] == rest;
  }

  lemma PartsOfSlash(rest: string)
    ensures Parts(['/'] + rest) == [""] + Parts(rest)
  {
    assert (['/'] + rest)[1..] == rest;
  }

  lemma PartsShift(p: string, file: string)
    requires p != "" && file != ""
    ensures Parts(p) <= Parts(file) <==> p[0] == file[0] && Parts(p[1..]) <= Parts(file[1..])
  {
    var c, d, u, v := p[0], file[0], p[1..], file[1..];
    var a, b := Parts(u), Parts(v);
    assert p == [c] + u && file == [d] + v;
    if c == '/' { PartsOfSlash(u); } else { PartsOfName(c, u); }
    if d == '/' { PartsOfSlash(v); } else { PartsOfName(d, v); }
    if c == '/' && d == '/' {
      HeadAndRest("", a, "", b);
    } else if c != '/' && d != '/' {
      HeadAndRest([c] + a[0], a[1..], [d] + b[0], b[1..]);
      HeadAndRest(c, a[0], d, b[0]);
      HeadAndRest(a[0], a[1..], b[0], b[1..]);
    } else if c == '/' {
      HeadAndRest("", a, [d] + b[0], b[1..]);
    } else {
      HeadAndRest([c] + a[0], a[1..], "", b);
    }
  }

  /** A file is asked about exactly when a scope is the whole repository or its
      components begin the file's: a neighbour whose name merely begins with a
      scope's name is not. */
  lemma UnderByComponents(file: string, scopes: seq<string>)
    ensures Under(file, scopes) <==>
            exists k :: 0 <= k < |scopes| && (scopes[k] == "." || Parts(scopes[k]) <= Parts(file))
  {
    forall k | 0 <= k < |scopes|
      ensures Parts(scopes[k]) <= Parts(file) <==> file == scopes[k] || scopes[k] + "/" <= file
    {
      PartsBegin(scopes[k], file);
    }
  }

  /** The same of a whole report: what it lists is what the record knows below the
      scopes, by components. */
  lemma ReportIsByComponents(paths: seq<BriefPath>, live: seq<Entry>, scopes: seq<string>, p: string)
    requires FullReport(paths, live, scopes)
    ensures p in Names(paths) <==>
            && OnRecord(live, p)
            && exists k :: 0 <= k < |scopes| && (scopes[k] == "." || Parts(scopes[k]) <= Parts(p))
  {
    UnderByComponents(p, scopes);
  }

  // ---- What the newest-first loop chooses ----

  lemma {:induction false} FirstRowIsFirst(rows: seq<FileRow>, p: string)
    ensures match FirstRow(rows, p)
            case None => forall j :: 0 <= j < |rows| ==> rows[j].path != p
            case Some(row) => exists j :: 0 <= j < |rows| && rows[j] == row && row.path == p &&
                                forall k :: 0 <= k < j ==> rows[k].path != p
    decreases |rows|
  {
    if rows != [] {
      var n := |rows| - 1;
      var past := rows[..n];
      FirstRowIsFirst(past, p);
      assert forall k :: 0 <= k < n ==> past[k] == rows[k];
    }
  }

  predicate HasRow(e: Entry, p: string) {
    e.Scan? && exists j :: 0 <= j < |e.files| && e.files[j].path == p
  }

  /** A path's verdict comes from the highest live scan entry that has a row for
      it, and from the first such row there; it has none only if no entry does. */
  lemma {:induction false} NewestIsHighest(live: seq<Entry>, p: string)
    ensures match Newest(live, p)
            case None => forall i :: 0 <= i < |live| ==> !HasRow(live[i], p)
            case Some(c) =>
              && (exists i :: 0 <= i < |live| && live[i] == c.entry && HasRow(live[i], p) &&
                    forall k :: i < k < |live| ==> !HasRow(live[k], p))
              && c.entry.Scan? && FirstRow(c.entry.files, p) == Some(c.row)
    decreases |live|
  {
    if live != [] {
      var rest := live[1..];
      NewestIsHighest(rest, p);
      assert forall k :: 1 <= k < |live| ==> live[k] == rest[k - 1];
      var e := live[0];
      if Newest(rest, p).Some? {
        var i :| 0 <= i < |rest| && rest[i] == Newest(rest, p).value.entry && HasRow(rest[i], p) &&
          forall k :: i < k < |rest| ==> !HasRow(rest[k], p);
        assert live[i + 1] == rest[i];
      } else if e.Scan? {
        assert e.files[..|e.files|] == e.files;
        FirstRowIsFirst(e.files, p);
        if Newest(live, p).Some? {
          assert HasRow(live[0], p);
        }
      }
    }
  }

  /** e is the newest live scan with a row for the path, row its first such row. */
  ghost predicate Speaks(live: seq<Entry>, p: string, i: nat, j: nat) {
    && i < |live| && HasRow(live[i], p) && (forall k :: i < k < |live| ==> !HasRow(live[k], p))
    && j < |live[i].files| && live[i].files[j].path == p
    && forall k :: 0 <= k < j ==> live[i].files[k].path != p
  }

  /** What is reported of a path's scan, field by field, is taken from the entry
      and the row that speak for it, and is missing exactly when none does. */
  lemma VerdictIsOfItsEntry(live: seq<Entry>, p: string)
    ensures var bp := PathReport(live, p);
            && bp.path == p && (bp.noScan <==> bp.scan.None?)
            && (bp.scan.None? ==>
                  bp.gaps == [] && bp.survivors == [] && forall i :: 0 <= i < |live| ==> !HasRow(live[i], p))
            && (bp.scan.Some? ==> exists i: nat, j: nat ::
                  && Speaks(live, p, i, j)
                  && bp.scan.value.hash == live[i].hash && bp.scan.value.commit == live[i].commit
                  && bp.scan.value.grade == live[i].files[j].grade
                  && bp.gaps == Missed(live[i].mutants, p, true) && bp.survivors == Missed(live[i].mutants, p, false))
  {
    NewestIsHighest(live, p);
    NewestIsAScan(live, p);
    if Newest(live, p).Some? {
      var c := Newest(live, p).value;
      var i: nat :| i < |live| && live[i] == c.entry && HasRow(live[i], p) &&
        forall k :: i < k < |live| ==> !HasRow(live[k], p);
      FirstRowIsFirst(c.entry.files, p);
      var j: nat :| j < |c.entry.files| && c.entry.files[j] == c.row && c.row.path == p &&
        forall k :: 0 <= k < j ==> c.entry.files[k].path != p;
      assert Speaks(live, p, i, j);
    }
  }

  /** Row j of the scan entry i speaks for a path under the scopes. */
  ghost predicate SpokenAt(live: seq<Entry>, scopes: seq<string>, p: string, i: nat, j: nat, c: string) {
    Under(p, scopes) && Speaks(live, p, i, j) && live[i].commit == c
  }

  /** Finding k of the review entry i names a file under the scopes. */
  predicate NamedAt(live: seq<Entry>, scopes: seq<string>, i: nat, k: nat, c: string) {
    && i < |live| && live[i].Review? && k < |live[i].findings|
    && live[i].findings[k].file != "" && Under(live[i].findings[k].file, scopes) && live[i].commit == c
  }

  lemma {:induction false} ReviewCommitsNamed(live: seq<Entry>, scopes: seq<string>, c: string)
    ensures c in ReviewCommits(live, scopes) <==> exists i: nat, k: nat :: NamedAt(live, scopes, i, k, c)
    decreases |live|
  {
    if live != [] {
      var rest := live[1..];
      ReviewCommitsNamed(rest, scopes, c);
      forall i: nat, k: nat
        ensures NamedAt(live, scopes, i + 1, k, c) <==> NamedAt(rest, scopes, i, k, c)
      {
        assert i < |rest| ==> live[i + 1] == rest[i];
      }
      if c in ReviewCommits(rest, scopes) {
        var i: nat, k: nat :| NamedAt(rest, scopes, i, k, c);
        assert NamedAt(live, scopes, i + 1, k, c);
      } else if c in ReviewCommits(live, scopes) {
        var k: nat :| k < |live[0].findings| && live[0].findings[k].file != "" &&
          Under(live[0].findings[k].file, scopes);
        assert NamedAt(live, scopes, 0, k, c);
      }
      forall i: nat, k: nat | NamedAt(live, scopes, i, k, c) && c !in ReviewCommits(rest, scopes)
        ensures c in ReviewCommits(live, scopes)
      {
        if i > 0 {
          assert NamedAt(rest, scopes, i - 1, k, c);
        }
      }
    }
  }

  /** The commits the report rests on are those of the scan entries that speak for
      a path under the scopes and of the reviews with a finding there, and no
      others. */
  lemma CommitsAreTheSpeakers(live: seq<Entry>, scopes: seq<string>, c: string)
    ensures RestsOn(live, scopes, c) <==>
            || (exists p, i: nat, j: nat :: SpokenAt(live, scopes, p, i, j, c))
            || (exists i: nat, k: nat :: NamedAt(live, scopes, i, k, c))
  {
    ReviewCommitsNamed(live, scopes, c);
    if exists p :: VerdictFrom(live, scopes, p, c) {
      var p :| VerdictFrom(live, scopes, p, c);
      SpeakerIsOne(live, scopes, p, c);
      var i: nat, j: nat :| SpokenAt(live, scopes, p, i, j, c);
    }
    forall p, i: nat, j: nat | SpokenAt(live, scopes, p, i, j, c)
      ensures VerdictFrom(live, scopes, p, c)
    {
      SpeakerIsOne(live, scopes, p, c);
    }
  }

  lemma SpeakerIsOne(live: seq<Entry>, scopes: seq<string>, p: string, c: string)
    ensures VerdictFrom(live, scopes, p, c) <==> exists i: nat, j: nat :: SpokenAt(live, scopes, p, i, j, c)
  {
    VerdictIsOfItsEntry(live, p);
    NewestIsAScan(live, p);
    forall i: nat, j: nat, k: nat, l: nat | Speaks(live, p, i, j) && Speaks(live, p, k, l)
      ensures i == k
    {
      assert HasRow(live[i], p) && HasRow(live[k], p);
    }
    if Newest(live, p).Some? {
      var i: nat, j: nat :| Speaks(live, p, i, j) && PathReport(live, p).scan.value.commit == live[i].commit;
      if VerdictFrom(live, scopes, p, c) {
        assert SpokenAt(live, scopes, p, i, j, c);
      }
    }
  }

  predicate NamesRepo(e: Entry, scans: bool) {
    (if scans then e.Scan? else e.Review?) && e.repo != ""
  }

  /** The repository is the one the newest scan naming one names; failing any, the
      newest such review's. */
  lemma {:induction false} RepoIsTheNewest(live: seq<Entry>, scans: bool)
    ensures RepoOf(live, scans) == "" ==> forall i :: 0 <= i < |live| ==> !NamesRepo(live[i], scans)
    ensures RepoOf(live, scans) != "" ==>
              exists i :: 0 <= i < |live| && NamesRepo(live[i], scans) && live[i].repo == RepoOf(live, scans) &&
                forall k :: i < k < |live| ==> !NamesRepo(live[k], scans)
    decreases |live|
  {
    if live != [] {
      var rest := live[1..];
      RepoIsTheNewest(rest, scans);
      assert forall k :: 1 <= k < |live| ==> live[k] == rest[k - 1];
      if RepoOf(rest, scans) != "" {
        var i :| 0 <= i < |rest| && NamesRepo(rest[i], scans) && rest[i].repo == RepoOf(rest, scans) &&
          forall k :: i < k < |rest| ==> !NamesRepo(rest[k], scans);
        assert live[i + 1] == rest[i];
      } else if RepoOf(live, scans) != "" {
        assert NamesRepo(live[0], scans);
      }
    }
  }

  predicate SurvivedOn(m: Mutant, p: string) {
    m.path == p && m.outcome == "survived"
  }

  function SurvivedMutants(mutants: seq<Mutant>, p: string): seq<Mutant> {
    if mutants == [] then []
    else
      var n := |mutants| - 1;
      SurvivedMutants(mutants[..n], p) + if SurvivedOn(mutants[n], p) then [mutants[n]] else []
  }

  /** Gaps and survivors split the path's survived mutants by whether a test was
      shown to kill them: none lost, none in both. */
  lemma {:induction false} MissedIsSplitByProof(mutants: seq<Mutant>, p: string)
    ensures multiset(Missed(mutants, p, true)) + multiset(Missed(mutants, p, false)) ==
              multiset(SurvivedMutants(mutants, p))
    ensures forall m :: m in Missed(mutants, p, true) ==> m.proven
    ensures forall m :: m in Missed(mutants, p, false) ==> !m.proven
    decreases |mutants|
  {
    if mutants != [] {
      MissedIsSplitByProof(mutants[..|mutants| - 1], p);
    }
  }

  // ---- What the reviews add ----

  /** How many of the findings name the path and came out so. */
  function NamingIn(findings: seq<Finding>, p: string, o: Outcome): nat {
    if findings == [] then 0
    else
      var n, f := |findings| - 1, findings[|findings| - 1];
      NamingIn(findings[..n], p, o) + if f.file == p && f.outcome == o then 1 else 0
  }

  /** The same over the live reviews. */
  function Naming(live: seq<Entry>, p: string, o: Outcome): nat {
    if live == [] then 0
    else Naming(live[1..], p, o) + if live[0].Review? then NamingIn(live[0].findings, p, o) else 0
  }

  predicate Named(live: seq<Entry>, p: string) {
    Naming(live, p, HeldUp) + Naming(live, p, DidNotHold) + Naming(live, p, Undecided) > 0
  }

  lemma {:induction false} EntryAddsUp(t: Tally, e: Entry, n: nat, p: string)
    requires e.Review? && n <= |e.findings| && p != ""
    ensures var t', fs := TellEntry(t, e, n, p), e.findings[..n];
            && |t'.findings| == |t.findings| + NamingIn(fs, p, HeldUp)
            && t'.didNotHold == t.didNotHold + NamingIn(fs, p, DidNotHold)
            && t'.undecided == t.undecided + NamingIn(fs, p, Undecided)
    decreases n
  {
    if n > 0 {
      EntryAddsUp(t, e, n - 1, p);
      assert e.findings[..n][..n - 1] == e.findings[..n - 1];
    }
  }

  lemma {:induction false} EntryNames(t: Tally, e: Entry, n: nat, p: string)
    requires e.Review? && n <= |e.findings| && p != ""
    ensures var t', fs := TellEntry(t, e, n, p), e.findings[..n];
            t'.named <==>
              t.named || NamingIn(fs, p, HeldUp) + NamingIn(fs, p, DidNotHold) + NamingIn(fs, p, Undecided) > 0
    decreases n
  {
    if n > 0 {
      EntryNames(t, e, n - 1, p);
      assert e.findings[..n][..n - 1] == e.findings[..n - 1];
    }
  }

  /** The claims listed and the two counts are each the number of live findings
      that name the path and came out that way, so together they are all of them;
      that there is none is what no_review says. */
  lemma {:induction false} FindingsAddUp(live: seq<Entry>, p: string)
    requires p != ""
    ensures var t := Told(live, p);
            && |t.findings| == Naming(live, p, HeldUp)
            && t.didNotHold == Naming(live, p, DidNotHold)
            && t.undecided == Naming(live, p, Undecided)
            && (t.named <==> Named(live, p))
    decreases |live|
  {
    if live != [] {
      FindingsAddUp(live[1..], p);
      if live[0].Review? {
        EntryAddsUp(Told(live[1..], p), live[0], |live[0].findings|, p);
        EntryNames(Told(live[1..], p), live[0], |live[0].findings|, p);
        assert live[0].findings[..|live[0].findings|] == live[0].findings;
      }
    }
  }

  lemma {:induction false} EntryAppends(t: Tally, e: Entry, n: nat, p: string)
    requires e.Review? && n <= |e.findings|
    ensures t.findings <= TellEntry(t, e, n, p).findings
    decreases n
  {
    if n > 0 {
      EntryAppends(t, e, n - 1, p);
    }
  }

  /** Claims are listed newest review first: what an older entry adds comes after
      everything newer, and is that entry's own. */
  lemma NewestClaimsFirst(older: Entry, newer: seq<Entry>, p: string)
    ensures var all, first := Told([older] + newer, p).findings, Told(newer, p).findings;
            && first <= all
            && forall k :: |first| <= k < |all| ==>
                 older.Review? && all[k].review == older.hash && all[k].finding in older.findings
  {
    var live := [older] + newer;
    assert live[1..] == newer && live[0] == older;
    if older.Review? {
      EntryAppends(Told(newer, p), older, |older.findings|, p);
      EntryAddsOwn(Told(newer, p), older, |older.findings|, p);
    }
  }

  lemma {:induction false} EntryAddsOwn(t: Tally, e: Entry, n: nat, p: string)
    requires e.Review? && n <= |e.findings|
    ensures var all := TellEntry(t, e, n, p).findings;
            |t.findings| <= |all| &&
            forall k :: |t.findings| <= k < |all| ==> all[k].review == e.hash && all[k].finding in e.findings
    decreases n
  {
    if n > 0 {
      EntryAddsOwn(t, e, n - 1, p);
    }
  }

  /** The claims listed are the findings that held, each under its own review. */
  predicate HeldIn(e: Entry, n: nat, c: Claim, p: string) {
    e.Review? && n <= |e.findings| && c.review == e.hash && c.finding.file == p && c.finding.outcome == HeldUp &&
    c.finding in e.findings[..n]
  }

  lemma {:induction false} EntryListsHeld(t: Tally, e: Entry, n: nat, p: string, c: Claim)
    requires e.Review? && n <= |e.findings| && p != ""
    ensures c in TellEntry(t, e, n, p).findings <==> c in t.findings || HeldIn(e, n, c, p)
  {
    if n > 0 {
      EntryListsHeld(t, e, n - 1, p, c);
      assert e.findings[..n] == e.findings[..n - 1] + [e.findings[n - 1]];
    }
  }

  lemma {:induction false} ListedClaimsHeld(live: seq<Entry>, p: string, c: Claim)
    requires p != ""
    ensures c in Told(live, p).findings <==>
            exists i :: 0 <= i < |live| && live[i].Review? && HeldIn(live[i], |live[i].findings|, c, p)
    decreases |live|
  {
    if live != [] {
      ListedClaimsHeld(live[1..], p, c);
      assert forall k :: 1 <= k < |live| ==> live[k] == live[1..][k - 1];
      assert forall k :: 0 <= k < |live| - 1 ==> live[1..][k] == live[k + 1];
      if live[0].Review? {
        EntryListsHeld(Told(live[1..], p), live[0], |live[0].findings|, p, c);
      }
    }
  }
}
