/** The brief's report (buildBrief): what stands on the record for the paths
    asked about, read newest entry first.

    The live entries are an input, oldest first, as is each finding's outcome
    under its newest adjudication; scopes and paths are in clean slash form. */
module Brief {
  import opened Common

  datatype FileRow = FileRow(path: string, grade: string)
  datatype Mutant = Mutant(path: string, id: string, outcome: string, proven: bool)
  datatype Outcome = Undecided | DidNotHold | HeldUp
  datatype Finding = Finding(id: string, file: string, outcome: Outcome)

  datatype Entry =
    | Scan(hash: string, repo: string, commit: string, files: seq<FileRow>, mutants: seq<Mutant>)
    | Review(hash: string, repo: string, commit: string, findings: seq<Finding>)
    | OtherEntry(hash: string)

  datatype BriefScan = BriefScan(hash: string, commit: string, grade: string)
  datatype Claim = Claim(review: string, finding: Finding)

  /** A path without a scan has no scan verdict; NoScan says so. */
  datatype BriefPath = BriefPath(
    path: string, scan: Option<BriefScan>, gaps: seq<Mutant>, survivors: seq<Mutant>,
    findings: seq<Claim>, didNotHold: nat, undecided: nat, noScan: bool, noReview: bool)

  function Blank(p: string): BriefPath {
    BriefPath(p, None, [], [], [], 0, 0, true, true)
  }

  predicate Under(file: string, scopes: seq<string>) {
    exists k :: 0 <= k < |scopes| && (scopes[k] == "." || file == scopes[k] || scopes[k] + "/" <= file)
  }

  // ---- The report, said without loops ----

  /** The scan entry and row that speak for a path. */
  datatype Chosen = Chosen(entry: Entry, row: FileRow)

  function FirstRow(rows: seq<FileRow>, p: string): Option<FileRow> {
    if rows == [] then None
    else
      var n := |rows| - 1;
      var before := FirstRow(rows[..n], p);
      if before.Some? then before else if rows[n].path == p then Some(rows[n]) else None
  }

  function ChosenFrom(e: Entry, n: nat, p: string): Option<Chosen>
    requires e.Scan? && n <= |e.files|
  {
    match FirstRow(e.files[..n], p)
    case None => None
    case Some(row) => Some(Chosen(e, row))
  }

  function Either<T>(first: Option<T>, second: Option<T>): Option<T> {
    if first.Some? then first else second
  }

  /** The newest scan with a row for the path; entries are oldest first. */
  function Newest(live: seq<Entry>, p: string): Option<Chosen> {
    if live == [] then None
    else
      Either(Newest(live[1..], p), if live[0].Scan? then ChosenFrom(live[0], |live[0].files|, p) else None)
  }

  /** The path's survived mutants in the entry, proven gaps or not. */
  function Missed(mutants: seq<Mutant>, p: string, proven: bool): seq<Mutant> {
    if mutants == [] then []
    else
      var n := |mutants| - 1;
      var m := mutants[n];
      Missed(mutants[..n], p, proven) +
      if m.path == p && m.outcome == "survived" && m.proven == proven then [m] else []
  }

  function ScannedPath(p: string, c: Option<Chosen>): BriefPath
    requires c.Some? ==> c.value.entry.Scan?
  {
    if c.None? then Blank(p)
    else
      var e := c.value.entry;
      Blank(p).(noScan := false, scan := Some(BriefScan(e.hash, e.commit, c.value.row.grade)),
                gaps := Missed(e.mutants, p, true), survivors := Missed(e.mutants, p, false))
  }

  /** The review side of a path. */
  datatype Tally = Tally(findings: seq<Claim>, didNotHold: nat, undecided: nat, named: bool)

  const Untold := Tally([], 0, 0, false)

  function Tell(t: Tally, review: string, f: Finding, p: string): Tally {
    if f.file == "" || f.file != p then t
    else
      match f.outcome
      case Undecided => t.(named := true, undecided := t.undecided + 1)
      case DidNotHold => t.(named := true, didNotHold := t.didNotHold + 1)
      case HeldUp => t.(named := true, findings := t.findings + [Claim(review, f)])
  }

  function TellEntry(t: Tally, e: Entry, n: nat, p: string): Tally
    requires e.Review? && n <= |e.findings|
  {
    if n == 0 then t else Tell(TellEntry(t, e, n - 1, p), e.hash, e.findings[n - 1], p)
  }

  /** Every review finding naming the path, newest review first. */
  function Told(live: seq<Entry>, p: string): Tally {
    if live == [] then Untold
    else
      var later := Told(live[1..], p);
      if live[0].Review? then TellEntry(later, live[0], |live[0].findings|, p) else later
  }

  lemma {:induction false} NewestIsAScan(live: seq<Entry>, p: string)
    ensures Newest(live, p).Some? ==> Newest(live, p).value.entry.Scan?
    decreases |live|
  {
    if live != [] {
      NewestIsAScan(live[1..], p);
    }
  }

  function WithTally(bp: BriefPath, t: Tally): BriefPath {
    bp.(findings := t.findings, didNotHold := t.didNotHold, undecided := t.undecided, noReview := !t.named)
  }

  /** Everything the report says about a path before the bound. */
  ghost function PathReport(live: seq<Entry>, p: string): BriefPath {
    NewestIsAScan(live, p);
    WithTally(ScannedPath(p, Newest(live, p)), Told(live, p))
  }

  ghost predicate OnRecord(live: seq<Entry>, p: string) {
    Newest(live, p).Some? || Told(live, p).named
  }

  function RepoOf(live: seq<Entry>, scans: bool): string {
    if live == [] then ""
    else
      var later := RepoOf(live[1..], scans);
      if later != "" then later
      else if scans && live[0].Scan? then live[0].repo
      else if !scans && live[0].Review? then live[0].repo
      else ""
  }

  predicate NamesUnder(e: Entry, n: nat, scopes: seq<string>)
    requires e.Review? && n <= |e.findings|
  {
    exists k :: 0 <= k < n && e.findings[k].file != "" && Under(e.findings[k].file, scopes)
  }

  /** Commits of the reviews with a finding under the scopes. */
  function ReviewCommits(live: seq<Entry>, scopes: seq<string>): set<string> {
    if live == [] then {}
    else
      ReviewCommits(live[1..], scopes) +
      if live[0].Review? && NamesUnder(live[0], |live[0].findings|, scopes) then {live[0].commit} else {}
  }

  // ---- The loops ----

  predicate AllScanned(byPath: map<string, BriefPath>) {
    forall p :: p in byPath ==> !byPath[p].noScan && byPath[p].scan.Some?
  }

  ghost predicate ScanCommit(byPath: map<string, BriefPath>, p: string, c: string) {
    p in byPath && byPath[p].scan.Some? && byPath[p].scan.value.commit == c
  }

  ghost predicate CommitsOf(byPath: map<string, BriefPath>, commits: set<string>) {
    forall c :: c in commits <==> exists p :: ScanCommit(byPath, p, c)
  }

  lemma OneMoreCommit(byPath: map<string, BriefPath>, commits: set<string>, p: string, bp: BriefPath)
    requires CommitsOf(byPath, commits) && p !in byPath && bp.scan.Some?
    ensures CommitsOf(byPath[p := bp], commits + {bp.scan.value.commit})
  {
    var more := byPath[p := bp];
    forall c
      ensures c in commits + {bp.scan.value.commit} <==> exists q :: ScanCommit(more, q, c)
    {
      assert forall q :: ScanCommit(byPath, q, c) ==> ScanCommit(more, q, c);
      assert forall q :: ScanCommit(more, q, c) ==> q == p || ScanCommit(byPath, q, c);
      if c == bp.scan.value.commit {
        assert ScanCommit(more, p, c);
      }
    }
  }

  /** What the scan loop has chosen for p after the entries in later, all newer
      than e, and the first n rows of e. */
  function ChosenSoFar(later: seq<Entry>, e: Entry, n: nat, p: string): Option<Chosen>
    requires e.Scan? && n <= |e.files|
  {
    Either(Newest(later, p), ChosenFrom(e, n, p))
  }

  ghost predicate Shows(byPath: map<string, BriefPath>, scopes: seq<string>, p: string, c: Option<Chosen>) {
    && (p in byPath <==> Under(p, scopes) && c.Some?)
    && (p in byPath ==> c.value.entry.Scan? && byPath[p] == ScannedPath(p, c))
  }

  ghost predicate Scanned(byPath: map<string, BriefPath>, live: seq<Entry>, scopes: seq<string>) {
    forall p :: Shows(byPath, scopes, p, Newest(live, p))
  }

  ghost predicate ScannedPart(byPath: map<string, BriefPath>, later: seq<Entry>, e: Entry, n: nat, scopes: seq<string>)
    requires e.Scan? && n <= |e.files|
  {
    forall p :: Shows(byPath, scopes, p, ChosenSoFar(later, e, n, p))
  }

  lemma NoRowYet(byPath: map<string, BriefPath>, later: seq<Entry>, e: Entry, scopes: seq<string>)
    requires e.Scan?
    ensures ScannedPart(byPath, later, e, 0, scopes) <==> Scanned(byPath, later, scopes)
  {
    forall p
      ensures ChosenSoFar(later, e, 0, p) == Newest(later, p)
    {
    }
    assert Scanned(byPath, later, scopes) ==> ScannedPart(byPath, later, e, 0, scopes) by {
      if Scanned(byPath, later, scopes) {
        forall p ensures Shows(byPath, scopes, p, ChosenSoFar(later, e, 0, p)) {
          assert Shows(byPath, scopes, p, Newest(later, p));
        }
      }
    }
    if ScannedPart(byPath, later, e, 0, scopes) {
      forall p ensures Shows(byPath, scopes, p, Newest(later, p)) {
        assert Shows(byPath, scopes, p, ChosenSoFar(later, e, 0, p));
      }
    }
  }

  lemma EveryRow(byPath: map<string, BriefPath>, live: seq<Entry>, scopes: seq<string>)
    requires live != [] && live[0].Scan?
    requires ScannedPart(byPath, live[1..], live[0], |live[0].files|, scopes)
    ensures Scanned(byPath, live, scopes)
  {
    forall p ensures Shows(byPath, scopes, p, Newest(live, p)) {
      assert Shows(byPath, scopes, p, ChosenSoFar(live[1..], live[0], |live[0].files|, p));
    }
  }

  lemma NotAScan(byPath: map<string, BriefPath>, live: seq<Entry>, scopes: seq<string>)
    requires live != [] && !live[0].Scan? && Scanned(byPath, live[1..], scopes)
    ensures Scanned(byPath, live, scopes)
  {
    forall p ensures Shows(byPath, scopes, p, Newest(live, p)) {
      assert Shows(byPath, scopes, p, Newest(live[1..], p));
    }
  }

  lemma OneMoreRow(before: map<string, BriefPath>, later: seq<Entry>, e: Entry, n: nat, scopes: seq<string>)
    requires e.Scan? && n < |e.files| && ScannedPart(before, later, e, n, scopes)
    ensures var row := e.files[n];
            ScannedPart(if Under(row.path, scopes) && row.path !in before
                        then before[row.path := ScannedPath(row.path, Some(Chosen(e, row)))] else before,
                        later, e, n + 1, scopes)
  {
    var row := e.files[n];
    var after := if Under(row.path, scopes) && row.path !in before
                 then before[row.path := ScannedPath(row.path, Some(Chosen(e, row)))] else before;
    var next := n + 1;
    forall p ensures Shows(after, scopes, p, ChosenSoFar(later, e, next, p)) {
      assert Shows(before, scopes, p, ChosenSoFar(later, e, n, p));
      assert e.files[..n + 1][..n] == e.files[..n];
    }
  }

  // ---- The review loop ----

  /** What is on p after the scan loop made base of it and the findings in t. */
  predicate Tells(byPath: map<string, BriefPath>, base: map<string, BriefPath>, scopes: seq<string>, p: string,
      t: Tally)
  {
    && (p in byPath <==> Under(p, scopes) && (p in base || t.named))
    && (p in byPath ==> byPath[p] == WithTally(if p in base then base[p] else Blank(p), t))
  }

  ghost predicate Reviewed(byPath: map<string, BriefPath>, base: map<string, BriefPath>, live: seq<Entry>,
      scopes: seq<string>)
  {
    forall p :: Tells(byPath, base, scopes, p, Told(live, p))
  }

  ghost predicate ReviewedPart(
    byPath: map<string, BriefPath>, base: map<string, BriefPath>, later: seq<Entry>, e: Entry, n: nat,
    scopes: seq<string>)
    requires e.Review? && n <= |e.findings|
  {
    forall p :: Tells(byPath, base, scopes, p, TellEntry(Told(later, p), e, n, p))
  }

  lemma ReviewStarts(byPath: map<string, BriefPath>, base: map<string, BriefPath>, later: seq<Entry>, e: Entry,
      scopes: seq<string>)
    requires e.Review? && Reviewed(byPath, base, later, scopes)
    ensures ReviewedPart(byPath, base, later, e, 0, scopes)
  {
    forall p ensures Tells(byPath, base, scopes, p, TellEntry(Told(later, p), e, 0, p)) {
      assert Tells(byPath, base, scopes, p, Told(later, p));
    }
  }

  lemma ReviewEnds(byPath: map<string, BriefPath>, base: map<string, BriefPath>, live: seq<Entry>, scopes: seq<string>)
    requires live != []
    requires live[0].Review? ==> ReviewedPart(byPath, base, live[1..], live[0], |live[0].findings|, scopes)
    requires !live[0].Review? ==> Reviewed(byPath, base, live[1..], scopes)
    ensures Reviewed(byPath, base, live, scopes)
  {
    forall p ensures Tells(byPath, base, scopes, p, Told(live, p)) {
      if live[0].Review? {
        assert Tells(byPath, base, scopes, p, TellEntry(Told(live[1..], p), live[0], |live[0].findings|, p));
      } else {
        assert Tells(byPath, base, scopes, p, Told(live[1..], p));
      }
    }
  }

  /** A path's record with one more finding on it. */
  function WithFinding(bp: BriefPath, review: string, f: Finding): BriefPath {
    var seen := bp.(noReview := false);
    match f.outcome
    case Undecided => seen.(undecided := seen.undecided + 1)
    case DidNotHold => seen.(didNotHold := seen.didNotHold + 1)
    case HeldUp => seen.(findings := seen.findings + [Claim(review, f)])
  }

  function AddedFinding(byPath: map<string, BriefPath>, review: string, f: Finding,
      scopes: seq<string>): map<string, BriefPath>
  {
    if f.file == "" || !Under(f.file, scopes) then byPath
    else byPath[f.file := WithFinding(if f.file in byPath then byPath[f.file] else Blank(f.file), review, f)]
  }

  lemma OneMoreFinding(
    byPath: map<string, BriefPath>, base: map<string, BriefPath>, later: seq<Entry>, e: Entry, n: nat,
    scopes: seq<string>)
    requires e.Review? && n < |e.findings| && ReviewedPart(byPath, base, later, e, n, scopes)
    ensures ReviewedPart(AddedFinding(byPath, e.hash, e.findings[n], scopes), base, later, e, n + 1, scopes)
  {
    var after := AddedFinding(byPath, e.hash, e.findings[n], scopes);
    var next := n + 1;
    forall p ensures Tells(after, base, scopes, p, TellEntry(Told(later, p), e, next, p)) {
      var t := TellEntry(Told(later, p), e, n, p);
      assert Tells(byPath, base, scopes, p, t);
      UnnamedIsUntold(later, p);
      UnnamedStaysUntold(later, e, n, p);
    }
  }

  /** Nothing is told of a path no finding names. */
  lemma {:induction false} UnnamedStaysUntold(later: seq<Entry>, e: Entry, n: nat, p: string)
    requires e.Review? && n <= |e.findings| && (!Told(later, p).named ==> Told(later, p) == Untold)
    ensures var t := TellEntry(Told(later, p), e, n, p); !t.named ==> t == Untold
  {
    if n > 0 {
      UnnamedStaysUntold(later, e, n - 1, p);
    }
  }

  lemma {:induction false} UnnamedIsUntold(live: seq<Entry>, p: string)
    ensures !Told(live, p).named ==> Told(live, p) == Untold
    decreases |live|
  {
    if live != [] {
      UnnamedIsUntold(live[1..], p);
      if live[0].Review? {
        UnnamedStaysUntold(live[1..], live[0], |live[0].findings|, p);
      }
    }
  }

  class BriefBuilder {
    var byPath: map<string, BriefPath>
    var commits: set<string>
    var repo: string

    constructor ()
      ensures byPath == map[] && commits == {} && repo == ""
    {
      byPath, commits, repo := map[], {}, "";
    }

    /** The loop over one row's entry: its survived mutants on the path. */
    static method Split(mutants: seq<Mutant>, p: string) returns (gaps: seq<Mutant>, survivors: seq<Mutant>)
      ensures gaps == Missed(mutants, p, true) && survivors == Missed(mutants, p, false)
    {
      gaps, survivors := [], [];
      for k := 0 to |mutants|
        invariant gaps == Missed(mutants[..k], p, true) && survivors == Missed(mutants[..k], p, false)
      {
        var m := mutants[k];
        assert mutants[..k + 1][..k] == mutants[..k];
        if m.path != p || m.outcome != "survived" {
          continue;
        }
        if m.proven {
          gaps := gaps + [m];
        } else {
          survivors := survivors + [m];
        }
      }
      assert mutants[..|mutants|] == mutants;
    }

    method AddScanRow(e: Entry, row: FileRow, scopes: seq<string>)
      requires e.Scan? && AllScanned(byPath) && CommitsOf(byPath, commits)
      modifies this`byPath, this`commits
      ensures AllScanned(byPath) && CommitsOf(byPath, commits)
      ensures byPath == if Under(row.path, scopes) && row.path !in old(byPath)
                        then old(byPath)[row.path := ScannedPath(row.path, Some(Chosen(e, row)))] else old(byPath)
    {
      if !Under(row.path, scopes) {
        return;
      }
      var bp := if row.path in byPath then byPath[row.path] else Blank(row.path);
      if !bp.noScan {
        return;
      }
      var gaps, survivors := Split(e.mutants, row.path);
      bp := bp.(noScan := false, scan := Some(BriefScan(e.hash, e.commit, row.grade)), gaps := gaps,
        survivors := survivors);
      OneMoreCommit(byPath, commits, row.path, bp);
      commits := commits + {e.commit};
      byPath := byPath[row.path := bp];
    }

    method ScanPass(live: seq<Entry>, scopes: seq<string>)
      requires byPath == map[] && commits == {} && repo == ""
      modifies this
      ensures Scanned(byPath, live, scopes) && AllScanned(byPath) && CommitsOf(byPath, commits)
      ensures repo == RepoOf(live, true)
    {
      for i := |live| downto 0
        invariant Scanned(byPath, live[i..], scopes) && AllScanned(byPath) && CommitsOf(byPath, commits)
        invariant repo == RepoOf(live[i..], true)
      {
        var e := live[i];
        assert live[i..][1..] == live[i + 1..];
        if !e.Scan? {
          NotAScan(byPath, live[i..], scopes);
          continue;
        }
        if repo == "" {
          repo := e.repo;
        }
        NoRowYet(byPath, live[i + 1..], e, scopes);
        for n := 0 to |e.files|
          invariant ScannedPart(byPath, live[i + 1..], e, n, scopes) && AllScanned(byPath) && CommitsOf(byPath, commits)
          invariant repo == RepoOf(live[i..], true)
        {
          OneMoreRow(byPath, live[i + 1..], e, n, scopes);
          AddScanRow(e, e.files[n], scopes);
        }
        EveryRow(byPath, live[i..], scopes);
      }
    }

    method AddFinding(e: Entry, f: Finding, scopes: seq<string>)
      requires e.Review?
      modifies this`byPath, this`commits
      ensures byPath == AddedFinding(old(byPath), e.hash, f, scopes)
      ensures commits == old(commits) + if f.file != "" && Under(f.file, scopes) then {e.commit} else {}
    {
      if f.file == "" || !Under(f.file, scopes) {
        return;
      }
      var bp := if f.file in byPath then byPath[f.file] else Blank(f.file);
      bp := bp.(noReview := false);
      commits := commits + {e.commit};
      match f.outcome {
        case Undecided => bp := bp.(undecided := bp.undecided + 1);
        case DidNotHold => bp := bp.(didNotHold := bp.didNotHold + 1);
        case HeldUp => bp := bp.(findings := bp.findings + [Claim(e.hash, f)]);
      }
      byPath := byPath[f.file := bp];
    }

    method ReviewPass(live: seq<Entry>, scopes: seq<string>)
      requires Reviewed(byPath, byPath, [], scopes)
      modifies this
      ensures Reviewed(byPath, old(byPath), live, scopes)
      ensures commits == old(commits) + ReviewCommits(live, scopes)
      ensures repo == if old(repo) != "" then old(repo) else RepoOf(live, false)
    {
      for i := |live| downto 0
        invariant Reviewed(byPath, old(byPath), live[i..], scopes)
        invariant commits == old(commits) + ReviewCommits(live[i..], scopes)
        invariant repo == if old(repo) != "" then old(repo) else RepoOf(live[i..], false)
      {
        var e := live[i];
        assert live[i..][1..] == live[i + 1..];
        if !e.Review? {
          ReviewEnds(byPath, old(byPath), live[i..], scopes);
          continue;
        }
        if repo == "" {
          repo := e.repo;
        }
        ReviewStarts(byPath, old(byPath), live[i + 1..], e, scopes);
        for n := 0 to |e.findings|
          invariant ReviewedPart(byPath, old(byPath), live[i + 1..], e, n, scopes)
          invariant commits == old(commits) + ReviewCommits(live[i + 1..], scopes) +
                               if NamesUnder(e, n, scopes) then {e.commit} else {}
          invariant repo == if old(repo) != "" then old(repo) else RepoOf(live[i..], false)
        {
          OneMoreFinding(byPath, old(byPath), live[i + 1..], e, n, scopes);
          AddFinding(e, e.findings[n], scopes);
        }
        ReviewEnds(byPath, old(byPath), live[i..], scopes);
      }
    }
  }
}
