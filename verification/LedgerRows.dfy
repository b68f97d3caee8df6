/** The rows one scan leaves in the ledger (certify_repo_record.go): one per
    source file, one per scored mutant.

    Hashing a file of the checkout, serialising a verdict and the many columns
    copied field by field are inputs or left out. */
module LedgerRows {
  import opened Common

  datatype MutantRef = MutantRef(id: string, parentSHA256: string, killedBy: string, unrepeatedKilledBy: string)

  /** Who planted a mutant, as the verdict records it. */
  datatype MutantSource =
    | ModelSource(model: string)
    | ToolSource(tool: string, operator: string, status: string)
    | OtherSource(kind: string)

  /** What one seat spent on a file; a nullable counter is None until measured. */
  datatype ModelCall = ModelCall(
    role: string, model: string, calls: nat, retries: Option<nat>, inputTokens: nat, outputTokens: nat,
    cachedInput: Option<nat>, cacheWrite: Option<nat>, unmeteredCalls: nat, wallNanos: nat)

  /** json is what serialising the verdict gives, if it can be serialised. */
  datatype Verdict = Verdict(
    killed: seq<MutantRef>, survived: seq<MutantRef>, provenIDs: set<string>, sources: map<string, MutantSource>,
    mutantsTotal: nat, mutantsInvalid: nat, killRate: real, uncovered: bool, modelCalls: seq<ModelCall>,
    json: Option<string>)

  datatype Result = Result(
    path: string, gradable: bool, reason: string, cacheKey: string, cacheHit: bool, verdict: Verdict,
    checkoutSHA256: string)

  datatype Exclusion = Exclusion(path: string, reason: string, checkoutSHA256: string)

  /** The coverage pre-flight: whether it ran, and what it measured. */
  datatype Preflight = Preflight(ran: bool, executed: map<string, bool>)

  datatype FileRow = FileRow(
    path: string, disposition: string, reason: string, gradable: bool, evidence: string, preflightState: string,
    killRate: Option<real>, uncovered: bool, verdictJSON: string, cacheKey: string, parentSHA256: string)

  datatype MutantRow = MutantRow(
    path: string, id: string, outcome: string, parentSHA256: string, proven: bool, provenByAuthoredAlone: bool,
    killedBy: string, unrepeatedKilledBy: string,
    source: string, generatorModel: string, sourceTool: string, sourceOperator: string, sourceStatus: string)

  // ---- One result per path ----

  predicate HasPath(results: seq<Result>, p: string) {
    exists i :: 0 <= i < |results| && results[i].path == p
  }

  function Dedupe(results: seq<Result>): (out: seq<Result>)
    ensures forall p :: HasPath(out, p) <==> HasPath(results, p)
    ensures forall i, j :: 0 <= i < j < |out| ==> out[i].path != out[j].path
    ensures forall r :: r in out ==> r in results
  {
    if results == [] then []
    else
      var n, r := |results| - 1, results[|results| - 1];
      var before := Dedupe(results[..n]);
      assert forall p :: HasPath(results, p) <==> HasPath(results[..n], p) || r.path == p by {
        assert results == results[..n] + [r];
        assert forall k :: 0 <= k < n ==> results[..n][k] == results[k];
      }
      if HasPath(results[..n], r.path) then before
      else
        assert forall k :: 0 <= k < |before| ==> (before + [r])[k] == before[k];
        assert (before + [r])[|before|] == r;
        assert forall k :: 0 <= k < |before| ==> before[k].path != r.path by {
          forall k | 0 <= k < |before| ensures before[k].path != r.path {
            assert HasPath(before, before[k].path);
          }
        }
        before + [r]
  }

  predicate FirstWithPath(results: seq<Result>, i: nat) {
    i < |results| && forall k :: 0 <= k < i ==> results[k].path != results[i].path
  }

  /** Of the results of one path the first is the one kept. */
  lemma {:induction false} DedupeKeepsFirst(results: seq<Result>, i: nat)
    requires i < |results|
    ensures FirstWithPath(results, i) ==> results[i] in Dedupe(results)
    ensures forall r :: r in Dedupe(results) && r.path == results[i].path && FirstWithPath(results, i) ==>
              r == results[i]
    decreases |results|
  {
    var n := |results| - 1;
    var past := results[..n];
    if i < n {
      DedupeKeepsFirst(past, i);
      assert past[i] == results[i];
      assert FirstWithPath(results, i) ==> FirstWithPath(past, i);
      assert HasPath(past, results[i].path);
    } else if FirstWithPath(results, n) {
      assert !HasPath(past, results[n].path);
      forall r | r in Dedupe(past) ensures r.path != results[n].path {
        var k :| 0 <= k < |Dedupe(past)| && Dedupe(past)[k] == r;
        assert HasPath(Dedupe(past), r.path);
      }
    }
  }

  lemma OneMoreResult(results: seq<Result>, i: nat)
    requires i < |results|
    ensures forall p :: HasPath(results[..i + 1], p) <==> HasPath(results[..i], p) || results[i].path == p
    ensures Dedupe(results[..i + 1]) ==
            Dedupe(results[..i]) + if HasPath(results[..i], results[i].path) then [] else [results[i]]
  {
    var past, next := results[..i], results[..i + 1];
    assert next[..i] == past && next[i] == results[i];
    forall p
      ensures HasPath(next, p) <==> HasPath(past, p) || results[i].path == p
    {
      assert next[i].path == results[i].path;
      assert forall k :: 0 <= k < i ==> next[k] == past[k];
    }
  }

  method DedupeResultsByPath(results: seq<Result>) returns (out: seq<Result>)
    ensures out == Dedupe(results)
  {
    var seen: set<string> := {};
    out := [];
    for i := 0 to |results|
      invariant out == Dedupe(results[..i])
      invariant forall p :: p in seen <==> HasPath(results[..i], p)
    {
      OneMoreResult(results, i);
      if results[i].path in seen {
        continue;
      }
      seen := seen + {results[i].path};
      out := out + [results[i]];
    }
    assert results[..|results|] == results;
  }

  // ---- The hash an audited row carries ----

  /** Every parent a verdict's mutants name. */
  function Parents(v: Verdict): seq<string> {
    Hashes(v.killed) + Hashes(v.survived)
  }

  function Hashes(refs: seq<MutantRef>): (hs: seq<string>)
    ensures |hs| == |refs| && forall k :: 0 <= k < |refs| ==> hs[k] == refs[k].parentSHA256
  {
    seq(|refs|, k requires 0 <= k < |refs| => refs[k].parentSHA256)
  }

  ghost predicate SomeNamed(hs: seq<string>) {
    exists i :: 0 <= i < |hs| && hs[i] != ""
  }

  ghost predicate Disagree(hs: seq<string>) {
    exists i, j :: 0 <= i < |hs| && 0 <= j < |hs| && hs[i] != "" && hs[j] != "" && hs[i] != hs[j]
  }

  /** sha stands for the parents: it is theirs, or there is none, or they differ. */
  ghost predicate StandsFor(hs: seq<string>, sha: string) {
    if Disagree(hs) || !SomeNamed(hs) then sha == "" else sha != "" && sha in hs
  }

  /** So far the parents named are all sha, or none is named. */
  ghost predicate Agreed(hs: seq<string>, sha: string) {
    && (forall i :: 0 <= i < |hs| ==> hs[i] == "" || hs[i] == sha)
    && (sha != "" ==> sha in hs)
  }

  lemma AgreedStands(hs: seq<string>, sha: string)
    requires Agreed(hs, sha)
    ensures StandsFor(hs, sha)
  {
    if sha != "" {
      var i :| 0 <= i < |hs| && hs[i] == sha;
      assert SomeNamed(hs);
    }
  }

  lemma OneMoreHash(hs: seq<string>, sha: string, h: string)
    requires Agreed(hs, sha)
    ensures h == "" || h == sha ==> Agreed(hs + [h], sha)
    ensures sha == "" ==> Agreed(hs + [h], h)
    ensures h != "" && sha != "" && h != sha ==> Disagree(hs + [h])
  {
    var more := hs + [h];
    assert more[|hs|] == h;
    assert forall i :: 0 <= i < |hs| ==> more[i] == hs[i];
    if sha != "" {
      var i :| 0 <= i < |hs| && hs[i] == sha;
      assert more[i] == sha;
    }
  }

  lemma StillDisagree(hs: seq<string>, rest: seq<string>)
    requires Disagree(hs)
    ensures Disagree(hs + rest)
  {
    var i, j :| 0 <= i < |hs| && 0 <= j < |hs| && hs[i] != "" && hs[j] != "" && hs[i] != hs[j];
    var more := hs + rest;
    assert more[i] == hs[i] && more[j] == hs[j];
  }

  lemma HashesAppend(a: seq<MutantRef>, b: seq<MutantRef>)
    ensures Hashes(a + b) == Hashes(a) + Hashes(b)
  {
  }

  lemma HashesOfOne(r: MutantRef)
    ensures Hashes([r]) == [r.parentSHA256]
  {
  }

  lemma Regroup(a: seq<string>, b: seq<string>, c: seq<string>)
    ensures a + b + c == a + (b + c)
  {
  }

  /** The hashes of a group, read up to the k-th, with the k-th, and to the end. */
  lemma HashesTo(done: seq<string>, refs: seq<MutantRef>, k: nat)
    requires k < |refs|
    ensures done + Hashes(refs[..k]) + [refs[k].parentSHA256] == done + Hashes(refs[..k + 1])
    ensures done + Hashes(refs[..k]) + [refs[k].parentSHA256] + Hashes(refs[k + 1..]) == done + Hashes(refs)
  {
    var r := refs[k];
    assert refs[..k + 1] == refs[..k] + [r];
    HashesAppend(refs[..k], [r]);
    HashesOfOne(r);
    Regroup(done, Hashes(refs[..k]), [r.parentSHA256]);
    assert refs == refs[..k + 1] + refs[k + 1..];
    HashesAppend(refs[..k + 1], refs[k + 1..]);
    Regroup(done, Hashes(refs[..k + 1]), Hashes(refs[k + 1..]));
  }

  /** The loop over one group of mutants. */
  method ScanGroup(refs: seq<MutantRef>, start: string, ghost done: seq<string>) returns (sha: string, clash: bool)
    requires Agreed(done, start)
    ensures !clash ==> Agreed(done + Hashes(refs), sha)
    ensures clash ==> Disagree(done + Hashes(refs))
  {
    sha := start;
    assert done + Hashes(refs[..0]) == done;
    for k := 0 to |refs|
      invariant Agreed(done + Hashes(refs[..k]), sha)
    {
      var h := refs[k].parentSHA256;
      ghost var past := done + Hashes(refs[..k]);
      HashesTo(done, refs, k);
      OneMoreHash(past, sha, h);
      if h == "" {
        continue;
      }
      if sha == "" {
        sha := h;
        continue;
      }
      if h != sha {
        StillDisagree(past + [h], Hashes(refs[k + 1..]));
        return "", true;
      }
    }
    assert refs[..|refs|] == refs;
    clash := false;
  }

  method AuditedParentSHA256(v: Verdict) returns (sha: string)
    ensures StandsFor(Parents(v), sha)
  {
    var clash;
    sha, clash := ScanGroup(v.killed, "", []);
    assert [] + Hashes(v.killed) == Hashes(v.killed);
    if clash {
      StillDisagree(Hashes(v.killed), Hashes(v.survived));
      return "";
    }
    sha, clash := ScanGroup(v.survived, sha, Hashes(v.killed));
    if clash {
      return "";
    }
    AgreedStands(Parents(v), sha);
  }

  /** At most one hash can stand for a verdict's parents; it is not empty exactly
      when some parent is named and no two named parents differ. */
  lemma OneHashStands(hs: seq<string>, a: string, b: string)
    requires StandsFor(hs, a) && StandsFor(hs, b)
    ensures a == b
    ensures a != "" <==> SomeNamed(hs) && !Disagree(hs)
  {
    if a != "" && b != "" {
      var i :| 0 <= i < |hs| && hs[i] == a;
      var j :| 0 <= j < |hs| && hs[j] == b;
      assert a == b;
    }
  }

  // ---- The evidence a row claims ----

  const Cancelled := "cancelled"
  const PrepFailed := "prep-failed"
  const NoMutantSource := "no-mutant-source"
  const ExecutorError := "executor-error"
  const NoPairedTest := "no-paired-test"
  const AmbiguousTest := "ambiguous-test"
  const NotSelected := "not-selected"
  const Uncovered := "uncovered — no test executes this file"
  const UncoveredByUnits := "uncovered — no test unit this command runs executes this file"
  const ImportOnly := "imported at load time — no test exercises it directly"
  const NoExecutableCode := "no executable code"

  function PreflightState(cm: Preflight, path: string): string {
    if !cm.ran || path !in cm.executed then "" else if cm.executed[path] then "executed" else "not-executed"
  }

  function UngradableEvidence(reason: string): string {
    if reason in [Cancelled, PrepFailed, NoMutantSource] then "" else "proven"
  }

  function ExclusionEvidence(reason: string, preflightState: string): string {
    if preflightState != "" then "coverage"
    else if reason in [NoPairedTest, AmbiguousTest, NotSelected] then "paired"
    else if reason in [Uncovered, UncoveredByUnits, ImportOnly, NoExecutableCode] then "coverage"
    else ""
  }

  // ---- File rows ----

  function KillRate(v: Verdict): Option<real> {
    if v.mutantsTotal == 0 && v.mutantsInvalid > 0 then None else Some(v.killRate)
  }

  predicate AuditedRow(row: FileRow, r: Result, cm: Preflight) {
    && row.path == r.path && row.disposition == "audited" && row.gradable && row.reason == ""
    && row.evidence == "proven" && row.preflightState == PreflightState(cm, r.path)
    && row.killRate == KillRate(r.verdict) && row.uncovered == r.verdict.uncovered
    && row.verdictJSON == (if r.verdict.json.Some? then r.verdict.json.value else "")
    && row.cacheKey == r.cacheKey
  }

  predicate RejectedRow(row: FileRow, r: Result, cm: Preflight) {
    var reason := if r.reason == "" then ExecutorError else r.reason;
    row == FileRow(r.path, "rejected", reason, false, UngradableEvidence(reason), PreflightState(cm, r.path),
                   None, false, "", "", r.checkoutSHA256)
  }

  predicate ExcludedRow(row: FileRow, e: Exclusion, cm: Preflight) {
    var state := PreflightState(cm, e.path);
    row == FileRow(e.path, "rejected", e.reason, false, ExclusionEvidence(e.reason, state), state,
                   None, e.reason in [Uncovered, UncoveredByUnits], "", "", e.checkoutSHA256)
  }

  ghost predicate ResultRow(row: FileRow, r: Result, cm: Preflight) {
    if r.gradable then AuditedRow(row, r, cm) && StandsFor(Parents(r.verdict), row.parentSHA256)
    else RejectedRow(row, r, cm)
  }

  predicate ExclusionHasPath(excluded: seq<Exclusion>, p: string) {
    exists i :: 0 <= i < |excluded| && excluded[i].path == p
  }

  /** The exclusions that get a row: the first of each path no result has. */
  function Recorded(excluded: seq<Exclusion>, results: seq<Result>): seq<Exclusion> {
    if excluded == [] then []
    else
      var n, e := |excluded| - 1, excluded[|excluded| - 1];
      Recorded(excluded[..n], results) +
      if HasPath(results, e.path) || ExclusionHasPath(excluded[..n], e.path) then [] else [e]
  }

  ghost predicate RowsOfResults(rows: seq<FileRow>, rs: seq<Result>, cm: Preflight) {
    |rows| == |rs| && forall i :: 0 <= i < |rs| ==> ResultRow(rows[i], rs[i], cm)
  }

  predicate RowsOfExclusions(rows: seq<FileRow>, es: seq<Exclusion>, cm: Preflight) {
    |rows| == |es| && forall i :: 0 <= i < |es| ==> ExcludedRow(rows[i], es[i], cm)
  }

  /** The file rows of a scan: a row for each deduplicated result, in order, then
      one for each recorded exclusion. */
  ghost predicate FileRows(rows: seq<FileRow>, results: seq<Result>, excluded: seq<Exclusion>, cm: Preflight) {
    var n := |Dedupe(results)|;
    && n <= |rows|
    && RowsOfResults(rows[..n], Dedupe(results), cm)
    && RowsOfExclusions(rows[n..], Recorded(excluded, results), cm)
  }

  /** The paths of those rows, in order. */
  ghost predicate ListsPaths(rows: seq<FileRow>, rs: seq<Result>, es: seq<Exclusion>) {
    && |rows| == |rs| + |es|
    && (forall i :: 0 <= i < |rs| ==> rows[i].path == rs[i].path)
    && (forall i :: |rs| <= i < |rows| ==> rows[i].path == es[i - |rs|].path)
  }

  method RowOf(r: Result, cm: Preflight) returns (row: FileRow)
    ensures ResultRow(row, r, cm) && row.path == r.path
  {
    if r.gradable {
      var sha := AuditedParentSHA256(r.verdict);
      var json := match r.verdict.json case Some(text) => text case None => "";
      return FileRow(r.path, "audited", "", true, "proven", PreflightState(cm, r.path),
                     KillRate(r.verdict), r.verdict.uncovered, json, r.cacheKey, sha);
    }
    var reason := r.reason;
    if reason == "" {
      reason := ExecutorError;
    }
    row := FileRow(r.path, "rejected", reason, false, UngradableEvidence(reason), PreflightState(cm, r.path),
                   None, false, "", "", r.checkoutSHA256);
  }

  lemma OneMoreExclusion(excluded: seq<Exclusion>, results: seq<Result>, i: nat)
    requires i < |excluded|
    ensures forall p :: ExclusionHasPath(excluded[..i + 1], p) <==>
              ExclusionHasPath(excluded[..i], p) || excluded[i].path == p
    ensures Recorded(excluded[..i + 1], results) == Recorded(excluded[..i], results) +
            if HasPath(results, excluded[i].path) || ExclusionHasPath(excluded[..i], excluded[i].path) then []
            else [excluded[i]]
  {
    var past, next := excluded[..i], excluded[..i + 1];
    assert next[..i] == past && next[i] == excluded[i];
    forall p
      ensures ExclusionHasPath(next, p) <==> ExclusionHasPath(past, p) || excluded[i].path == p
    {
      assert next[i].path == excluded[i].path;
      assert forall k :: 0 <= k < i ==> next[k] == past[k];
    }
  }

  ghost predicate SamePaths(rows: seq<FileRow>, rs: seq<Result>) {
    |rows| == |rs| && forall i :: 0 <= i < |rs| ==> rows[i].path == rs[i].path
  }

  ghost predicate SameExcludedPaths(rows: seq<FileRow>, es: seq<Exclusion>) {
    |rows| == |es| && forall i :: 0 <= i < |es| ==> rows[i].path == es[i].path
  }

  lemma ListsBoth(graded: seq<FileRow>, rest: seq<FileRow>, rs: seq<Result>, es: seq<Exclusion>)
    requires SamePaths(graded, rs) && SameExcludedPaths(rest, es)
    ensures ListsPaths(graded + rest, rs, es)
  {
  }

  lemma OneMoreRow(rows: seq<FileRow>, rs: seq<Result>, row: FileRow, r: Result, cm: Preflight)
    requires RowsOfResults(rows, rs, cm) && SamePaths(rows, rs)
    requires ResultRow(row, r, cm) && row.path == r.path
    ensures RowsOfResults(rows + [row], rs + [r], cm) && SamePaths(rows + [row], rs + [r])
  {
    var more, all := rows + [row], rs + [r];
    forall k | 0 <= k < |all|
      ensures ResultRow(more[k], all[k], cm)
    {
      if k < |rs| {
        assert more[k] == rows[k] && all[k] == rs[k];
      } else {
        assert more[k] == row && all[k] == r;
      }
    }
  }

  /** The loop over the results. */
  method ResultRows(rs: seq<Result>, cm: Preflight) returns (rows: seq<FileRow>, seen: set<string>)
    ensures RowsOfResults(rows, rs, cm) && SamePaths(rows, rs)
    ensures forall p :: p in seen <==> HasPath(rs, p)
  {
    rows, seen := [], {};
    for i := 0 to |rs|
      invariant RowsOfResults(rows, rs[..i], cm) && SamePaths(rows, rs[..i])
      invariant forall p :: p in seen <==> HasPath(rs[..i], p)
    {
      seen := seen + {rs[i].path};
      OneMoreResult(rs, i);
      var row := RowOf(rs[i], cm);
      OneMoreRow(rows, rs[..i], row, rs[i], cm);
      assert rs[..i + 1] == rs[..i] + [rs[i]];
      rows := rows + [row];
    }
    assert rs[..|rs|] == rs;
  }

  /** The loop over the exclusions, seen holding the paths of the results. */
  method ExclusionRows(excluded: seq<Exclusion>, ghost results: seq<Result>, hadRows: set<string>, cm: Preflight)
    returns (rows: seq<FileRow>)
    requires forall p :: p in hadRows <==> HasPath(results, p)
    ensures RowsOfExclusions(rows, Recorded(excluded, results), cm)
    ensures SameExcludedPaths(rows, Recorded(excluded, results))
  {
    var seen := hadRows;
    ghost var es: seq<Exclusion> := [];
    rows := [];
    for i := 0 to |excluded|
      invariant es == Recorded(excluded[..i], results)
      invariant RowsOfExclusions(rows, es, cm) && SameExcludedPaths(rows, es)
      invariant forall p :: p in seen <==> HasPath(results, p) || ExclusionHasPath(excluded[..i], p)
    {
      var e := excluded[i];
      OneMoreExclusion(excluded, results, i);
      if e.path in seen {
        continue;
      }
      seen := seen + {e.path};
      es := es + [e];
      var state := PreflightState(cm, e.path);
      var row := FileRow(e.path, "rejected", e.reason, false, ExclusionEvidence(e.reason, state), state,
                         None, e.reason in [Uncovered, UncoveredByUnits], "", "", e.checkoutSHA256);
      rows := rows + [row];
    }
    assert excluded[..|excluded|] == excluded;
  }

  method BuildScanFileRows(results: seq<Result>, excluded: seq<Exclusion>, cm: Preflight) returns (rows: seq<FileRow>)
    ensures FileRows(rows, results, excluded, cm)
    ensures ListsPaths(rows, Dedupe(results), Recorded(excluded, results))
  {
    var rs := DedupeResultsByPath(results);
    var graded, seen := ResultRows(rs, cm);
    var rest := ExclusionRows(excluded, results, seen, cm);
    rows := graded + rest;
    assert rows[..|rs|] == graded && rows[|rs|..] == rest;
    ListsBoth(graded, rest, rs, Recorded(excluded, results));
  }
}
