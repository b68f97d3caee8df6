/** Mutant rows, and what the rows of one scan promise together. */
module LedgerFacts {
  import opened LedgerRows

  // ---- Mutant rows ----

  function KilledRow(path: string, m: MutantRef, v: Verdict): MutantRow {
    WithSource(MutantRow(path, m.id, "killed", m.parentSHA256, false, false, m.killedBy, "", "", "", "", "", ""), v)
  }

  function SurvivedRow(path: string, m: MutantRef, v: Verdict): MutantRow {
    var proven := m.id in v.provenIDs;
    WithSource(
      MutantRow(path, m.id, "survived", m.parentSHA256, proven, proven, "", m.unrepeatedKilledBy, "", "", "", "", ""),
      v)
  }

  /** A tool's mutant is never put under a model, and a mutant without a recorded
      source is put under nobody. */
  function WithSource(row: MutantRow, v: Verdict): (r: MutantRow)
    ensures r == row.(source := r.source, generatorModel := r.generatorModel, sourceTool := r.sourceTool,
                      sourceOperator := r.sourceOperator, sourceStatus := r.sourceStatus)
  {
    if row.id !in v.sources then row
    else
      match v.sources[row.id]
      case ModelSource(model) => row.(source := "model", generatorModel := model)
      case ToolSource(tool, operator, status) =>
        row.(source := "tool", sourceTool := tool, sourceOperator := operator, sourceStatus := status)
      case OtherSource(kind) => row.(source := kind)
  }

  function KilledRows(path: string, refs: seq<MutantRef>, v: Verdict): (rows: seq<MutantRow>)
    ensures |rows| == |refs| && forall k :: 0 <= k < |refs| ==> rows[k] == KilledRow(path, refs[k], v)
  {
    seq(|refs|, k requires 0 <= k < |refs| => KilledRow(path, refs[k], v))
  }

  function SurvivedRows(path: string, refs: seq<MutantRef>, v: Verdict): (rows: seq<MutantRow>)
    ensures |rows| == |refs| && forall k :: 0 <= k < |refs| ==> rows[k] == SurvivedRow(path, refs[k], v)
  {
    seq(|refs|, k requires 0 <= k < |refs| => SurvivedRow(path, refs[k], v))
  }

  function RowsOf(r: Result): seq<MutantRow> {
    if !r.gradable then []
    else KilledRows(r.path, r.verdict.killed, r.verdict) + SurvivedRows(r.path, r.verdict.survived, r.verdict)
  }

  function RowsOfAll(rs: seq<Result>): seq<MutantRow> {
    if rs == [] then [] else RowsOfAll(rs[..|rs| - 1]) + RowsOf(rs[|rs| - 1])
  }

  method RowsOfResult(r: Result) returns (rows: seq<MutantRow>)
    requires r.gradable
    ensures rows == RowsOf(r)
  {
    rows := [];
    for k := 0 to |r.verdict.killed|
      invariant |rows| == k
      invariant forall j :: 0 <= j < k ==> rows[j] == KilledRow(r.path, r.verdict.killed[j], r.verdict)
    {
      rows := rows + [KilledRow(r.path, r.verdict.killed[k], r.verdict)];
    }
    var n := |rows|;
    for k := 0 to |r.verdict.survived|
      invariant |rows| == n + k
      invariant forall j :: 0 <= j < n ==> rows[j] == KilledRow(r.path, r.verdict.killed[j], r.verdict)
      invariant forall j :: 0 <= j < k ==> rows[n + j] == SurvivedRow(r.path, r.verdict.survived[j], r.verdict)
    {
      rows := rows + [SurvivedRow(r.path, r.verdict.survived[k], r.verdict)];
    }
    assert rows[..n] == KilledRows(r.path, r.verdict.killed, r.verdict);
    assert rows[n..] == SurvivedRows(r.path, r.verdict.survived, r.verdict);
    assert rows == rows[..n] + rows[n..];
  }

  method BuildScanMutantRows(results: seq<Result>) returns (rows: seq<MutantRow>)
    ensures rows == RowsOfAll(Dedupe(results))
  {
    var rs := DedupeResultsByPath(results);
    rows := [];
    for i := 0 to |rs|
      invariant rows == RowsOfAll(rs[..i])
    {
      assert rs[..i + 1][..i] == rs[..i];
      if rs[i].gradable {
        var more := RowsOfResult(rs[i]);
        rows := rows + more;
      }
    }
    assert rs[..|rs|] == rs;
  }

  // ---- Paths ----

  ghost predicate RowFor(rows: seq<FileRow>, p: string) {
    exists i :: 0 <= i < |rows| && rows[i].path == p
  }

  lemma {:induction false} RecordedFacts(excluded: seq<Exclusion>, results: seq<Result>)
    ensures forall p :: ExclusionHasPath(Recorded(excluded, results), p) <==>
              ExclusionHasPath(excluded, p) && !HasPath(results, p)
    ensures forall i, j :: 0 <= i < j < |Recorded(excluded, results)| ==>
              Recorded(excluded, results)[i].path != Recorded(excluded, results)[j].path
    decreases |excluded|
  {
    if excluded != [] {
      var n := |excluded| - 1;
      var past, e := excluded[..n], excluded[n];
      var before, after := Recorded(past, results), Recorded(excluded, results);
      RecordedFacts(past, results);
      assert excluded[..n + 1] == excluded;
      OneMoreExclusion(excluded, results, n);
      forall p
        ensures ExclusionHasPath(after, p) <==> ExclusionHasPath(before, p) || (after != before && e.path == p)
      {
        assert forall k :: 0 <= k < |before| ==> after[k] == before[k];
        if after != before {
          assert after[|before|] == e;
        }
      }
      if after == before + [e] {
        assert after[|before|] == e;
        assert forall k :: 0 <= k < |before| ==> after[k] == before[k];
        forall k | 0 <= k < |before| ensures before[k].path != e.path {
          assert ExclusionHasPath(before, before[k].path);
        }
      }
    }
  }

  /** No path has two rows, and the paths with a row are those of the results and
      of the exclusions. */
  lemma FileRowsCoverOnce(rows: seq<FileRow>, results: seq<Result>, excluded: seq<Exclusion>)
    requires ListsPaths(rows, Dedupe(results), Recorded(excluded, results))
    ensures forall i, j :: 0 <= i < j < |rows| ==> rows[i].path != rows[j].path
    ensures forall p :: RowFor(rows, p) <==> HasPath(results, p) || ExclusionHasPath(excluded, p)
  {
    var rs, es := Dedupe(results), Recorded(excluded, results);
    RecordedFacts(excluded, results);
    PathsApart(rows, rs, es);
    forall p
      ensures RowFor(rows, p) <==> HasPath(rs, p) || ExclusionHasPath(es, p)
    {
      PathsCovered(rows, rs, es, p);
    }
  }

  lemma PathsApart(rows: seq<FileRow>, rs: seq<Result>, es: seq<Exclusion>)
    requires ListsPaths(rows, rs, es)
    requires forall i, j :: 0 <= i < j < |rs| ==> rs[i].path != rs[j].path
    requires forall i, j :: 0 <= i < j < |es| ==> es[i].path != es[j].path
    requires forall p :: ExclusionHasPath(es, p) ==> !HasPath(rs, p)
    ensures forall i, j :: 0 <= i < j < |rows| ==> rows[i].path != rows[j].path
  {
    forall i, j | 0 <= i < |rs| <= j < |rows|
      ensures rows[i].path != rows[j].path
    {
      assert ExclusionHasPath(es, es[j - |rs|].path);
      assert HasPath(rs, rs[i].path);
    }
  }

  lemma PathsCovered(rows: seq<FileRow>, rs: seq<Result>, es: seq<Exclusion>, p: string)
    requires ListsPaths(rows, rs, es)
    ensures RowFor(rows, p) <==> HasPath(rs, p) || ExclusionHasPath(es, p)
  {
    if HasPath(rs, p) {
      var i :| 0 <= i < |rs| && rs[i].path == p;
      assert rows[i].path == p;
    }
    if ExclusionHasPath(es, p) {
      var i :| 0 <= i < |es| && es[i].path == p;
      assert rows[|rs| + i].path == p;
    }
    if RowFor(rows, p) {
      var i :| 0 <= i < |rows| && rows[i].path == p;
      if i >= |rs| {
        assert es[i - |rs|].path == p;
      }
    }
  }

  /** Only an audited row holds what a later scan could reuse. */
  predicate CachedIfAudited(row: FileRow) {
    && (row.cacheKey != "" || row.verdictJSON != "" || row.killRate.Some? ==> row.disposition == "audited")
    && (row.disposition == "audited" || row.disposition == "rejected")
    && (row.gradable <==> row.disposition == "audited")
  }

  lemma ResultRowKind(row: FileRow, r: Result, cm: Preflight)
    requires ResultRow(row, r, cm)
    ensures CachedIfAudited(row) && row.path == r.path && (row.disposition == "audited" <==> r.gradable)
  {
  }

  lemma ExcludedRowKind(row: FileRow, e: Exclusion, cm: Preflight)
    requires ExcludedRow(row, e, cm)
    ensures CachedIfAudited(row) && row.path == e.path && row.disposition == "rejected"
  {
  }

  ghost predicate GradedPath(rs: seq<Result>, p: string) {
    exists i :: 0 <= i < |rs| && rs[i].path == p && rs[i].gradable
  }

  lemma GradedIsKnown(rs: seq<Result>, p: string)
    ensures GradedPath(rs, p) ==> HasPath(rs, p)
  {
  }

  /** What makes a row reusable as a verdict is on audited rows only, and a path is
      audited exactly when its kept result is gradable. */
  lemma OnlyAuditedRowsAreCached(rows: seq<FileRow>, results: seq<Result>, excluded: seq<Exclusion>, cm: Preflight,
      i: nat)
    requires FileRows(rows, results, excluded, cm) && i < |rows|
    ensures CachedIfAudited(rows[i])
    ensures rows[i].disposition == "audited" <==> GradedPath(Dedupe(results), rows[i].path)
  {
    var rs, es := Dedupe(results), Recorded(excluded, results);
    var n := |rs|;
    if i < n {
      assert rows[i] == rows[..n][i];
      ResultRowKind(rows[i], rs[i], cm);
    } else {
      assert rows[i] == rows[n..][i - n];
      ExcludedRowKind(rows[i], es[i - n], cm);
      RecordedFacts(excluded, results);
      assert ExclusionHasPath(es, rows[i].path);
      GradedIsKnown(rs, rows[i].path);
    }
  }

  predicate IsMutantOf(m: MutantRef, v: Verdict) {
    m in v.killed || m in v.survived
  }

  /** Some mutant names a parent, and all that do name this one. */
  ghost predicate AllName(v: Verdict, sha: string) {
    && (exists m :: IsMutantOf(m, v) && m.parentSHA256 == sha)
    && forall m :: IsMutantOf(m, v) ==> m.parentSHA256 == "" || m.parentSHA256 == sha
  }

  lemma ParentsAreTheMutants(v: Verdict, h: string)
    ensures h in Parents(v) <==> exists m :: IsMutantOf(m, v) && m.parentSHA256 == h
  {
    var ks, ss := Hashes(v.killed), Hashes(v.survived);
    if h in ks {
      var i :| 0 <= i < |ks| && ks[i] == h;
      assert v.killed[i] in v.killed && IsMutantOf(v.killed[i], v);
    }
    if h in ss {
      var i :| 0 <= i < |ss| && ss[i] == h;
      assert v.survived[i] in v.survived && IsMutantOf(v.survived[i], v);
    }
    forall m | IsMutantOf(m, v) && m.parentSHA256 == h
      ensures h in Parents(v)
    {
      if m in v.killed {
        var i :| 0 <= i < |v.killed| && v.killed[i] == m;
        assert ks[i] == h && h in ks;
      } else {
        var i :| 0 <= i < |v.survived| && v.survived[i] == m;
        assert ss[i] == h && h in ss;
      }
    }
  }

  lemma StandsForIsNamed(v: Verdict, sha: string)
    requires StandsFor(Parents(v), sha)
    ensures sha != "" ==> AllName(v, sha)
    ensures forall h :: h != "" && AllName(v, h) ==> sha == h
  {
    var hs := Parents(v);
    forall m | IsMutantOf(m, v)
      ensures m.parentSHA256 in hs
    {
      ParentsAreTheMutants(v, m.parentSHA256);
    }
    if sha != "" {
      ParentsAreTheMutants(v, sha);
      forall m | IsMutantOf(m, v)
        ensures m.parentSHA256 == "" || m.parentSHA256 == sha
      {
        NoneDiffers(hs, m.parentSHA256, sha);
      }
    }
    forall h | h != "" && AllName(v, h)
      ensures sha == h
    {
      var m :| IsMutantOf(m, v) && m.parentSHA256 == h;
      assert h in hs;
      forall k | 0 <= k < |hs| ensures hs[k] == "" || hs[k] == h {
        ParentsAreTheMutants(v, hs[k]);
        assert hs[k] in hs;
      }
      AllAlike(hs, h, sha);
    }
  }

  lemma NoneDiffers(hs: seq<string>, a: string, b: string)
    requires !Disagree(hs) && a in hs && b in hs && b != ""
    ensures a == "" || a == b
  {
    var i, j :| 0 <= i < |hs| && 0 <= j < |hs| && hs[i] == a && hs[j] == b;
    assert !(hs[i] != "" && hs[j] != "" && hs[i] != hs[j]);
  }

  lemma AllAlike(hs: seq<string>, h: string, sha: string)
    requires StandsFor(hs, sha) && h in hs && h != ""
    requires forall k :: 0 <= k < |hs| ==> hs[k] == "" || hs[k] == h
    ensures sha == h
  {
    var i :| 0 <= i < |hs| && hs[i] == h;
    assert SomeNamed(hs) && !Disagree(hs);
  }

  /** An audited row carries a parent hash exactly when some mutant of its verdict,
      killed or survived, names a parent and every other that does names the same,
      and then it carries that one. */
  lemma AuditedRowHash(
    rows: seq<FileRow>, results: seq<Result>, excluded: seq<Exclusion>, cm: Preflight, i: nat)
    requires FileRows(rows, results, excluded, cm) && i < |Dedupe(results)| && Dedupe(results)[i].gradable
    ensures var v, sha := Dedupe(results)[i].verdict, rows[i].parentSHA256;
            && (sha != "" ==> AllName(v, sha))
            && (forall h :: h != "" && AllName(v, h) ==> sha == h)
  {
    assert rows[i] == rows[..|Dedupe(results)|][i];
    assert ResultRow(rows[i], Dedupe(results)[i], cm);
    StandsForIsNamed(Dedupe(results)[i].verdict, rows[i].parentSHA256);
  }

  /** The job got as far as its check command. */
  predicate RanItsCommand(r: Result) {
    r.gradable || r.reason !in ["cancelled", "prep-failed", "no-mutant-source"]
  }

  /** A kept result on the path whose job ran its command. */
  ghost predicate CommandRan(rs: seq<Result>, p: string) {
    exists i :: 0 <= i < |rs| && rs[i].path == p && RanItsCommand(rs[i])
  }

  lemma ResultRowEvidence(row: FileRow, r: Result, cm: Preflight)
    requires ResultRow(row, r, cm)
    ensures row.evidence == if RanItsCommand(r) then "proven" else ""
  {
  }

  /** An instrumented run measured the path, or said why it was excluded. */
  predicate Instrumented(row: FileRow, cm: Preflight) {
    || (cm.ran && row.path in cm.executed)
    || row.reason in [
         "uncovered — no test executes this file",
         "uncovered — no test unit this command runs executes this file",
         "imported at load time — no test exercises it directly", "no executable code"]
  }

  /** A pairing by name was tried for the path, and that is what decided it. */
  predicate PairingDecided(row: FileRow) {
    row.reason in ["no-paired-test", "ambiguous-test", "not-selected"]
  }

  lemma ExcludedRowEvidence(row: FileRow, e: Exclusion, cm: Preflight)
    requires ExcludedRow(row, e, cm)
    ensures row.evidence != "proven" && (row.evidence == "coverage" <==> Instrumented(row, cm))
    ensures row.evidence == "paired" <==> PairingDecided(row) && !(cm.ran && row.path in cm.executed)
  {
  }

  lemma KeptRowEvidence(row: FileRow, results: seq<Result>, i: nat, cm: Preflight)
    requires i < |Dedupe(results)| && ResultRow(row, Dedupe(results)[i], cm)
    ensures row.evidence == "proven" <==> CommandRan(Dedupe(results), row.path)
    ensures row.evidence != "coverage" && row.evidence != "paired" && HasPath(results, row.path)
  {
    var rs := Dedupe(results);
    ResultRowKind(row, rs[i], cm);
    ResultRowEvidence(row, rs[i], cm);
    assert HasPath(rs, row.path);
    forall j | 0 <= j < |rs| && rs[j].path == row.path ensures j == i {
      OnlyOneOnPath(rs, i, j);
    }
  }

  lemma RecordedRowEvidence(
    row: FileRow, results: seq<Result>, excluded: seq<Exclusion>, i: nat, cm: Preflight)
    requires i < |Recorded(excluded, results)| && ExcludedRow(row, Recorded(excluded, results)[i], cm)
    ensures row.evidence != "proven" && !CommandRan(Dedupe(results), row.path)
    ensures row.evidence == "coverage" <==> Instrumented(row, cm)
    ensures row.evidence == "paired" <==> PairingDecided(row) && !(cm.ran && row.path in cm.executed)
    ensures !HasPath(results, row.path)
  {
    var es := Recorded(excluded, results);
    ExcludedRowKind(row, es[i], cm);
    ExcludedRowEvidence(row, es[i], cm);
    RecordedFacts(excluded, results);
    assert ExclusionHasPath(es, row.path);
    RanIsKnown(Dedupe(results), row.path);
  }

  /** Whoever's job it was, proven evidence is claimed for a path exactly when its
      kept result's job ran the check command, and coverage evidence exactly when
      no result has the path and an instrumented run spoke of it. */
  lemma EvidenceIsEarned(
    rows: seq<FileRow>, results: seq<Result>, excluded: seq<Exclusion>, cm: Preflight, i: nat)
    requires FileRows(rows, results, excluded, cm) && i < |rows|
    ensures rows[i].evidence == "proven" <==> CommandRan(Dedupe(results), rows[i].path)
    ensures rows[i].evidence == "coverage" <==> !HasPath(results, rows[i].path) && Instrumented(rows[i], cm)
    ensures rows[i].evidence == "paired" <==>
              !HasPath(results, rows[i].path) && PairingDecided(rows[i]) && !(cm.ran && rows[i].path in cm.executed)
  {
    var n := |Dedupe(results)|;
    if i < n {
      assert rows[i] == rows[..n][i];
      KeptRowEvidence(rows[i], results, i, cm);
    } else {
      assert rows[i] == rows[n..][i - n];
      RecordedRowEvidence(rows[i], results, excluded, i - n, cm);
    }
  }

  lemma RanIsKnown(rs: seq<Result>, p: string)
    ensures CommandRan(rs, p) ==> HasPath(rs, p)
  {
  }

  // ---- What a file row tells ----

  /** A row's pre-flight state is what the pre-flight measured of its path, and
      empty when it measured nothing. */
  predicate TellsPreflight(row: FileRow, cm: Preflight) {
    && (row.preflightState == "executed" <==> cm.ran && row.path in cm.executed && cm.executed[row.path])
    && (row.preflightState == "not-executed" <==> cm.ran && row.path in cm.executed && !cm.executed[row.path])
    && (row.preflightState == "" <==> !cm.ran || row.path !in cm.executed)
  }

  /** A result's row: its reason is never lost, its rate is withheld exactly when
      every mutant was thrown out before grading, and what it may be reused by is
      the result's own. */
  predicate TellsResult(row: FileRow, r: Result) {
    && row.path == r.path
    && (!r.gradable ==> row.reason != "" && (r.reason != "" ==> row.reason == r.reason))
    && (!r.gradable && r.reason == "" ==> row.reason == "executor-error")
    && (!r.gradable ==> row.parentSHA256 == r.checkoutSHA256 && !row.uncovered)
    && (r.gradable ==>
          && (row.killRate.None? <==> r.verdict.mutantsTotal == 0 && r.verdict.mutantsInvalid > 0)
          && (row.killRate.Some? ==> row.killRate.value == r.verdict.killRate)
          && row.cacheKey == r.cacheKey && row.uncovered == r.verdict.uncovered
          && (r.verdict.json.Some? ==> row.verdictJSON == r.verdict.json.value)
          && (r.verdict.json.None? ==> row.verdictJSON == ""))
  }

  lemma ResultRowTells(row: FileRow, r: Result, cm: Preflight)
    requires ResultRow(row, r, cm)
    ensures TellsResult(row, r) && TellsPreflight(row, cm)
  {
  }

  /** An exclusion's row: its reason, the hash of the file as it is checked out, and
      uncovered exactly for the two reasons that say no test reaches it. */
  predicate TellsExclusion(row: FileRow, e: Exclusion) {
    && row.path == e.path && row.reason == e.reason && row.parentSHA256 == e.checkoutSHA256
    && (row.uncovered <==>
          e.reason == "uncovered — no test executes this file" ||
          e.reason == "uncovered — no test unit this command runs executes this file")
  }

  lemma ExcludedRowTells(row: FileRow, e: Exclusion, cm: Preflight)
    requires ExcludedRow(row, e, cm)
    ensures TellsExclusion(row, e) && TellsPreflight(row, cm)
  {
  }

  predicate FirstExclusion(excluded: seq<Exclusion>, k: nat) {
    k < |excluded| && forall l :: 0 <= l < k ==> excluded[l].path != excluded[k].path
  }

  lemma {:induction false} RecordedIsFirst(excluded: seq<Exclusion>, results: seq<Result>, e: Exclusion)
    requires e in Recorded(excluded, results)
    ensures exists k: nat :: FirstExclusion(excluded, k) && excluded[k] == e
    decreases |excluded|
  {
    var n := |excluded| - 1;
    var past := excluded[..n];
    if e in Recorded(past, results) {
      RecordedIsFirst(past, results, e);
      var k: nat :| FirstExclusion(past, k) && past[k] == e;
      assert FirstExclusion(excluded, k);
    } else {
      forall l | 0 <= l < n ensures excluded[l].path != excluded[n].path {
        assert past[l] == excluded[l];
      }
      assert FirstExclusion(excluded, n);
    }
  }

  ghost predicate TellsFirst(row: FileRow, excluded: seq<Exclusion>) {
    exists k: nat :: FirstExclusion(excluded, k) && TellsExclusion(row, excluded[k])
  }

  /** Every row of a scan tells what its result, or the first exclusion of its path,
      and the pre-flight have said of it. */
  lemma RowsTell(rows: seq<FileRow>, results: seq<Result>, excluded: seq<Exclusion>, cm: Preflight, i: nat)
    requires FileRows(rows, results, excluded, cm) && i < |rows|
    ensures TellsPreflight(rows[i], cm)
    ensures if i < |Dedupe(results)| then TellsResult(rows[i], Dedupe(results)[i]) else TellsFirst(rows[i], excluded)
  {
    var n := |Dedupe(results)|;
    if i < n {
      assert rows[i] == rows[..n][i];
      ResultRowTells(rows[i], Dedupe(results)[i], cm);
    } else {
      var es := Recorded(excluded, results);
      assert rows[i] == rows[n..][i - n];
      ExcludedRowTells(rows[i], es[i - n], cm);
      RecordedIsFirst(excluded, results, es[i - n]);
    }
  }

  // ---- Mutant rows against file rows ----

  lemma {:induction false} RowCameFrom(rs: seq<Result>, row: MutantRow) returns (i: nat)
    requires row in RowsOfAll(rs)
    ensures i < |rs| && row in RowsOf(rs[i])
    decreases |rs|
  {
    var n := |rs| - 1;
    if row in RowsOf(rs[n]) {
      i := n;
    } else {
      i := RowCameFrom(rs[..n], row);
    }
  }

  /** Every mutant row lies under an audited file row of the same scan. */
  lemma MutantRowsAreAudited(
    rows: seq<FileRow>, mutants: seq<MutantRow>, results: seq<Result>, excluded: seq<Exclusion>, cm: Preflight, k: nat)
    requires FileRows(rows, results, excluded, cm) && mutants == RowsOfAll(Dedupe(results)) && k < |mutants|
    ensures exists i :: 0 <= i < |rows| && rows[i].path == mutants[k].path && rows[i].disposition == "audited"
  {
    var rs := Dedupe(results);
    assert mutants[k] in mutants;
    var i := RowCameFrom(rs, mutants[k]);
    assert rows[i] == rows[..|rs|][i];
    assert ResultRow(rows[i], rs[i], cm);
    assert mutants[k].path == rs[i].path;
  }

  function OnPath(rows: seq<MutantRow>, p: string): seq<MutantRow> {
    if rows == [] then []
    else
      var n := |rows| - 1;
      OnPath(rows[..n], p) + if rows[n].path == p then [rows[n]] else []
  }

  lemma {:induction false} OnPathInTwo(a: seq<MutantRow>, b: seq<MutantRow>, p: string)
    ensures OnPath(a + b, p) == OnPath(a, p) + OnPath(b, p)
    decreases |b|
  {
    if b == [] {
      assert a + b == a;
    } else {
      var n := |b| - 1;
      assert (a + b)[..|a| + n] == a + b[..n];
      OnPathInTwo(a, b[..n], p);
    }
  }

  lemma {:induction false} OnPathAllOrNone(rows: seq<MutantRow>, p: string, q: string)
    requires forall k :: 0 <= k < |rows| ==> rows[k].path == q
    ensures OnPath(rows, p) == if p == q then rows else []
    decreases |rows|
  {
    if rows != [] {
      var n := |rows| - 1;
      OnPathAllOrNone(rows[..n], p, q);
      assert rows == rows[..n] + [rows[n]];
    }
  }

  /** The last result's rows are on its own path and on no other. */
  lemma OnPathOfLast(rs: seq<Result>, p: string)
    requires rs != []
    ensures var n := |rs| - 1;
            OnPath(RowsOfAll(rs), p) == OnPath(RowsOfAll(rs[..n]), p) + if rs[n].path == p then RowsOf(rs[n]) else []
  {
    var n := |rs| - 1;
    OnPathInTwo(RowsOfAll(rs[..n]), RowsOf(rs[n]), p);
    OnPathAllOrNone(RowsOf(rs[n]), p, rs[n].path);
  }

  lemma {:induction false} NoRowsElsewhere(rs: seq<Result>, p: string)
    requires forall k :: 0 <= k < |rs| ==> rs[k].path != p
    ensures OnPath(RowsOfAll(rs), p) == []
    decreases |rs|
  {
    if rs != [] {
      OnPathOfLast(rs, p);
      NoRowsElsewhere(rs[..|rs| - 1], p);
    }
  }

  /** The rows of a file are one for each killed and one for each survived mutant
      of its verdict and nothing else, whatever other results name its path. */
  lemma {:induction false} MutantRowsOfFile(rs: seq<Result>, i: nat)
    requires i < |rs| && forall a, b :: 0 <= a < b < |rs| ==> rs[a].path != rs[b].path
    ensures OnPath(RowsOfAll(rs), rs[i].path) == RowsOf(rs[i])
    decreases |rs|
  {
    var n := |rs| - 1;
    var p := rs[i].path;
    OnPathOfLast(rs, p);
    if i < n {
      MutantRowsOfFile(rs[..n], i);
    } else {
      NoRowsElsewhere(rs[..n], p);
    }
  }

  /** What a mutant row claims of verdict v: proven of exactly the survivors v
      proved, killers of killed ones only, a model of that model's mutants only. */
  predicate ClaimsOf(row: MutantRow, v: Verdict) {
    && row.proven == row.provenByAuthoredAlone
    && (row.proven <==> row.outcome == "survived" && row.id in v.provenIDs)
    && (row.outcome == "survived" ==> row.killedBy == "")
    && (row.outcome == "killed" ==> row.unrepeatedKilledBy == "")
    && (row.generatorModel != "" ==> row.id in v.sources && v.sources[row.id] == ModelSource(row.generatorModel))
    && (row.sourceTool != "" ==> row.id in v.sources && v.sources[row.id].ToolSource? && row.generatorModel == "")
  }

  lemma RowClaims(r: Result, k: nat)
    requires r.gradable && k < |RowsOf(r)|
    ensures RowsOf(r)[k].path == r.path && ClaimsOf(RowsOf(r)[k], r.verdict)
  {
    var row, n := RowsOf(r)[k], |r.verdict.killed|;
    if k < n {
      assert row == KilledRow(r.path, r.verdict.killed[k], r.verdict);
    } else {
      assert row == SurvivedRow(r.path, r.verdict.survived[k - n], r.verdict);
    }
  }

  predicate Backs(r: Result, row: MutantRow) {
    r.gradable && r.path == row.path && ClaimsOf(row, r.verdict)
  }

  lemma RowIsBacked(rs: seq<Result>, row: MutantRow) returns (i: nat)
    requires row in RowsOfAll(rs)
    ensures i < |rs| && Backs(rs[i], row)
  {
    i := RowCameFrom(rs, row);
    var k :| 0 <= k < |RowsOf(rs[i])| && RowsOf(rs[i])[k] == row;
    RowClaims(rs[i], k);
  }

  lemma OnlyOneOnPath(rs: seq<Result>, i: nat, j: nat)
    requires i < |rs| && j < |rs| && rs[i].path == rs[j].path
    requires forall a, b :: 0 <= a < b < |rs| ==> rs[a].path != rs[b].path
    ensures i == j
  {
  }

  /** Every mutant row of a scan is on the path of exactly one kept result, and that
      one is graded and its verdict says what the row claims. */
  lemma ProvenIsTheVerdicts(results: seq<Result>, row: MutantRow) returns (i: nat)
    requires row in RowsOfAll(Dedupe(results))
    ensures i < |Dedupe(results)| && Backs(Dedupe(results)[i], row)
    ensures forall j: nat :: j < |Dedupe(results)| && Dedupe(results)[j].path == row.path ==> j == i
  {
    var rs := Dedupe(results);
    i := RowIsBacked(rs, row);
    forall j: nat | j < |rs| && rs[j].path == row.path ensures j == i {
      OnlyOneOnPath(rs, i, j);
    }
  }

  /** For every kept result of a scan. */
  lemma MutantRowsPerFile(results: seq<Result>, i: nat)
    requires i < |Dedupe(results)|
    ensures OnPath(RowsOfAll(Dedupe(results)), Dedupe(results)[i].path) == RowsOf(Dedupe(results)[i])
  {
    MutantRowsOfFile(Dedupe(results), i);
  }

  /** Each row is its mutant's: first the killed ones with their killers, then the
      survivors with the test a first run blamed, each with its own parent. */
  lemma RowsAreTheirMutants(r: Result, k: nat)
    requires r.gradable && k < |RowsOf(r)|
    ensures |RowsOf(r)| == |r.verdict.killed| + |r.verdict.survived|
    ensures var row, n := RowsOf(r)[k], |r.verdict.killed|;
            var m := if k < n then r.verdict.killed[k] else r.verdict.survived[k - n];
            && row.path == r.path && row.id == m.id && row.parentSHA256 == m.parentSHA256
            && row.outcome == (if k < n then "killed" else "survived")
            && row.killedBy == (if k < n then m.killedBy else "")
            && row.unrepeatedKilledBy == (if k < n then "" else m.unrepeatedKilledBy)
            && (m.id !in r.verdict.sources ==> row.source == "" && row.generatorModel == "")
            && (m.id in r.verdict.sources ==> match r.verdict.sources[m.id]
                  case ModelSource(model) => row.source == "model" && row.generatorModel == model
                  case ToolSource(tool, operator, status) =>
                    row.source == "tool" && row.generatorModel == "" && row.sourceTool == tool
                    && row.sourceOperator == operator && row.sourceStatus == status
                  case OtherSource(kind) => row.source == kind && row.generatorModel == "")
  {
    var row, n := RowsOf(r)[k], |r.verdict.killed|;
    if k < n {
      assert row == KilledRow(r.path, r.verdict.killed[k], r.verdict);
    } else {
      assert row == SurvivedRow(r.path, r.verdict.survived[k - n], r.verdict);
    }
  }
}
