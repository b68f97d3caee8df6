/** What a scan spent on model calls: the rows it records, and the totals it
    prints, which must say the same. */
module Cost {
  import opened Common
  import opened LedgerRows

  datatype CallRow = CallRow(
    path: string, role: string, model: string, calls: nat, retries: Option<nat>, inputTokens: nat, outputTokens: nat,
    cachedInput: Option<nat>, cacheWrite: Option<nat>, unmeteredCalls: nat, wallMillis: nat)

  const RosterRoleOrder := [
    "mutant-generator", "test-writer", "test-critic", "mutant-generator-shadow", "test-writer-shadow"]

  const NanosPerMilli: nat := 1_000_000

  /** A row holds whole milliseconds: what is left over is dropped. */
  function RowOf(path: string, c: ModelCall): CallRow {
    CallRow(path, c.role, c.model, c.calls, c.retries, c.inputTokens, c.outputTokens,
            c.cachedInput, c.cacheWrite, c.unmeteredCalls, c.wallNanos / NanosPerMilli)
  }

  function RowsOf(path: string, calls: seq<ModelCall>): (rows: seq<CallRow>)
    ensures |rows| == |calls|
  {
    if calls == [] then [] else RowsOf(path, calls[..|calls| - 1]) + [RowOf(path, calls[|calls| - 1])]
  }

  /** The calls this scan paid for: those of a reused verdict were paid before. */
  function Paid(rs: seq<Result>): seq<ModelCall> {
    if rs == [] then []
    else
      var n := |rs| - 1;
      if rs[n].cacheHit then Paid(rs[..n]) else Paid(rs[..n]) + rs[n].verdict.modelCalls
  }

  function PaidRows(rs: seq<Result>): seq<CallRow> {
    if rs == [] then []
    else
      var n := |rs| - 1;
      if rs[n].cacheHit then PaidRows(rs[..n]) else PaidRows(rs[..n]) + RowsOf(rs[n].path, rs[n].verdict.modelCalls)
  }

  method BuildScanModelCallRows(results: seq<Result>) returns (rows: seq<CallRow>)
    ensures rows == PaidRows(Dedupe(results))
  {
    var rs := DedupeResultsByPath(results);
    rows := [];
    for i := 0 to |rs|
      invariant rows == PaidRows(rs[..i])
    {
      assert rs[..i + 1][..i] == rs[..i];
      if rs[i].cacheHit {
        continue;
      }
      var calls := rs[i].verdict.modelCalls;
      ghost var before := rows;
      for k := 0 to |calls|
        invariant rows == before + RowsOf(rs[i].path, calls[..k])
      {
        assert calls[..k + 1][..k] == calls[..k];
        rows := rows + [RowOf(rs[i].path, calls[k])];
      }
      assert calls[..|calls|] == calls;
    }
    assert rs[..|rs|] == rs;
  }

  // ---- Totals by role ----

  function AddCount(total: Option<nat>, add: Option<nat>): Option<nat> {
    if add.None? then total else if total.None? then add else Some(total.value + add.value)
  }

  function Started(c: ModelCall): ModelCall {
    ModelCall(c.role, c.model, 0, None, 0, 0, None, None, 0, 0)
  }

  function AddCall(t: ModelCall, c: ModelCall): ModelCall {
    ModelCall(t.role, t.model, t.calls + c.calls, AddCount(t.retries, c.retries),
              t.inputTokens + c.inputTokens, t.outputTokens + c.outputTokens,
              AddCount(t.cachedInput, c.cachedInput), AddCount(t.cacheWrite, c.cacheWrite),
              t.unmeteredCalls + c.unmeteredCalls, t.wallNanos + c.wallNanos)
  }

  /** The running total of one role. */
  function RoleTotal(calls: seq<ModelCall>, role: string): Option<ModelCall> {
    if calls == [] then None
    else
      var n, c := |calls| - 1, calls[|calls| - 1];
      var before := RoleTotal(calls[..n], role);
      if c.role != role then before
      else Some(AddCall(if before.Some? then before.value else Started(c), c))
  }

  ghost predicate TotalsAre(totals: map<string, ModelCall>, calls: seq<ModelCall>) {
    forall role :: RoleTotal(calls, role) == if role in totals then Some(totals[role]) else None
  }

  lemma OneMoreCall(totals: map<string, ModelCall>, calls: seq<ModelCall>, c: ModelCall)
    requires TotalsAre(totals, calls)
    ensures TotalsAre(
              totals[c.role := AddCall(if c.role in totals then totals[c.role] else Started(c), c)], calls + [c])
  {
    var after := totals[c.role := AddCall(if c.role in totals then totals[c.role] else Started(c), c)];
    var more := calls + [c];
    assert more[..|calls|] == calls;
    forall role
      ensures RoleTotal(more, role) == if role in after then Some(after[role]) else None
    {
      assert RoleTotal(calls, role) == if role in totals then Some(totals[role]) else None;
    }
  }

  /** The loop's body for one call. */
  method Charge(totals: map<string, ModelCall>, c: ModelCall) returns (after: map<string, ModelCall>)
    ensures after == totals[c.role := AddCall(if c.role in totals then totals[c.role] else Started(c), c)]
  {
    var t := Started(c);
    if c.role in totals {
      t := totals[c.role];
    }
    t := t.(calls := t.calls + c.calls);
    if c.retries.Some? {
      if t.retries.None? {
        t := t.(retries := Some(0));
      }
      t := t.(retries := Some(t.retries.value + c.retries.value));
    }
    t := t.(inputTokens := t.inputTokens + c.inputTokens, outputTokens := t.outputTokens + c.outputTokens);
    t := t.(cachedInput := AddCount(t.cachedInput, c.cachedInput), cacheWrite := AddCount(t.cacheWrite, c.cacheWrite));
    t := t.(unmeteredCalls := t.unmeteredCalls + c.unmeteredCalls, wallNanos := t.wallNanos + c.wallNanos);
    after := totals[c.role := t];
  }

  /** The roster's totals, in roster order. */
  function InRosterOrder(calls: seq<ModelCall>, roles: seq<string>): seq<ModelCall> {
    if roles == [] then []
    else
      var n := |roles| - 1;
      var t := RoleTotal(calls, roles[n]);
      InRosterOrder(calls, roles[..n]) + if t.Some? then [t.value] else []
  }

  lemma OneMorePaid(rs: seq<Result>, i: nat)
    requires i < |rs|
    ensures Paid(rs[..i + 1]) == if rs[i].cacheHit then Paid(rs[..i]) else Paid(rs[..i]) + rs[i].verdict.modelCalls
  {
    assert rs[..i + 1][..i] == rs[..i];
  }

  /** The loop over one file's calls. */
  method ChargeAll(start: map<string, ModelCall>, calls: seq<ModelCall>, ghost before: seq<ModelCall>)
    returns (totals: map<string, ModelCall>)
    requires TotalsAre(start, before)
    ensures TotalsAre(totals, before + calls)
  {
    totals := start;
    assert before + calls[..0] == before;
    for k := 0 to |calls|
      invariant TotalsAre(totals, before + calls[..k])
    {
      OneMoreCall(totals, before + calls[..k], calls[k]);
      assert before + calls[..k] + [calls[k]] == before + calls[..k + 1];
      totals := Charge(totals, calls[k]);
    }
    assert calls[..|calls|] == calls;
  }

  method TotalByRole(rs: seq<Result>) returns (totals: map<string, ModelCall>)
    ensures TotalsAre(totals, Paid(rs))
  {
    totals := map[];
    for i := 0 to |rs|
      invariant TotalsAre(totals, Paid(rs[..i]))
    {
      OneMorePaid(rs, i);
      if rs[i].cacheHit {
        continue;
      }
      totals := ChargeAll(totals, rs[i].verdict.modelCalls, Paid(rs[..i]));
    }
    assert rs[..|rs|] == rs;
  }

  method ScanModelCallTotals(results: seq<Result>) returns (out: seq<ModelCall>)
    ensures out == InRosterOrder(Paid(Dedupe(results)), RosterRoleOrder)
  {
    var rs := DedupeResultsByPath(results);
    var totals := TotalByRole(rs);
    out := [];
    for k := 0 to |RosterRoleOrder|
      invariant out == InRosterOrder(Paid(rs), RosterRoleOrder[..k])
    {
      assert RosterRoleOrder[..k + 1][..k] == RosterRoleOrder[..k];
      var role := RosterRoleOrder[k];
      assert RoleTotal(Paid(rs), role) == if role in totals then Some(totals[role]) else None;
      if role in totals {
        out := out + [totals[role]];
      }
    }
    assert RosterRoleOrder[..|RosterRoleOrder|] == RosterRoleOrder;
  }

  method ModelCallRowTotals(rows: seq<CallRow>) returns (input: nat, output: nat, calls: nat)
    ensures input == SumAll(rows, InputTokens) && output == SumAll(rows, OutputTokens) && calls == SumAll(rows, Calls)
  {
    input, output, calls := 0, 0, 0;
    for k := 0 to |rows|
      invariant input == SumAll(rows[..k], InputTokens)
      invariant output == SumAll(rows[..k], OutputTokens)
      invariant calls == SumAll(rows[..k], Calls)
    {
      assert rows[..k + 1][..k] == rows[..k];
      input := input + rows[k].inputTokens;
      output := output + rows[k].outputTokens;
      calls := calls + rows[k].calls;
    }
    assert rows[..|rows|] == rows;
  }

  // ---- Sums over the recorded rows ----

  datatype Counter = Calls | InputTokens | OutputTokens | UnmeteredCalls
  datatype Nullable = Retries | CachedInput | CacheWrite

  function OfRow(r: CallRow, c: Counter): nat {
    match c
    case Calls => r.calls
    case InputTokens => r.inputTokens
    case OutputTokens => r.outputTokens
    case UnmeteredCalls => r.unmeteredCalls
  }

  function OfTotal(t: ModelCall, c: Counter): nat {
    match c
    case Calls => t.calls
    case InputTokens => t.inputTokens
    case OutputTokens => t.outputTokens
    case UnmeteredCalls => t.unmeteredCalls
  }

  function NullableOfRow(r: CallRow, c: Nullable): Option<nat> {
    match c
    case Retries => r.retries
    case CachedInput => r.cachedInput
    case CacheWrite => r.cacheWrite
  }

  function NullableOfTotal(t: ModelCall, c: Nullable): Option<nat> {
    match c
    case Retries => t.retries
    case CachedInput => t.cachedInput
    case CacheWrite => t.cacheWrite
  }

  function SumAll(rows: seq<CallRow>, c: Counter): nat {
    if rows == [] then 0 else SumAll(rows[..|rows| - 1], c) + OfRow(rows[|rows| - 1], c)
  }

  /** The rows of one role. */
  function OfRole(rows: seq<CallRow>, role: string): seq<CallRow> {
    if rows == [] then []
    else
      var n := |rows| - 1;
      if rows[n].role == role then OfRole(rows[..n], role) + [rows[n]] else OfRole(rows[..n], role)
  }

  function SumMillis(rows: seq<CallRow>): nat {
    if rows == [] then 0 else SumMillis(rows[..|rows| - 1]) + rows[|rows| - 1].wallMillis
  }

  /** What was measured of a nullable counter, 0 standing for not measured. */
  function SumMeasured(rows: seq<CallRow>, c: Nullable): nat {
    if rows == [] then 0
    else
      var last := NullableOfRow(rows[|rows| - 1], c);
      SumMeasured(rows[..|rows| - 1], c) + if last.Some? then last.value else 0
  }

  predicate Unmeasured(rows: seq<CallRow>, c: Nullable) {
    forall k :: 0 <= k < |rows| ==> NullableOfRow(rows[k], c).None?
  }

  // ---- Totals and rows agree ----

  /** A role's total against the rows recorded for it: one exists exactly when
      the other does, and every counter says the same. */
  predicate Agrees(t: Option<ModelCall>, role: string, mine: seq<CallRow>) {
    if t.None? then mine == []
    else
      && mine != [] && t.value.role == role && t.value.model == mine[0].model
      && (forall c: Counter :: OfTotal(t.value, c) == SumAll(mine, c))
      && (forall c: Nullable :: NullableAgrees(NullableOfTotal(t.value, c), mine, c))
      && WallExact(t.value.wallNanos, mine)
  }

  predicate NullableAgrees(total: Option<nat>, mine: seq<CallRow>, c: Nullable) {
    && (total.None? <==> Unmeasured(mine, c))
    && (total.Some? ==> total.value == SumMeasured(mine, c))
  }

  /** In whole milliseconds the total is at least the rows' sum, and less than one
      millisecond per row above it. */
  predicate WallAgrees(nanos: nat, mine: seq<CallRow>) {
    0 <= nanos / NanosPerMilli - SumMillis(mine) < |mine|
  }

  /** What each row dropped, in nanoseconds: the exact form of WallAgrees. */
  predicate WallExact(nanos: nat, mine: seq<CallRow>) {
    SumMillis(mine) * NanosPerMilli <= nanos <= SumMillis(mine) * NanosPerMilli + |mine| * (NanosPerMilli - 1)
  }

  lemma WallInMillis(nanos: nat, mine: seq<CallRow>)
    requires mine != [] && WallExact(nanos, mine)
    ensures WallAgrees(nanos, mine)
  {
  }

  lemma {:induction false} UnmeasuredSum(mine: seq<CallRow>, c: Nullable)
    requires Unmeasured(mine, c)
    ensures SumMeasured(mine, c) == 0
    decreases |mine|
  {
    if mine != [] {
      UnmeasuredSum(mine[..|mine| - 1], c);
    }
  }

  lemma OneMoreNullable(total: Option<nat>, mine: seq<CallRow>, row: CallRow, c: Nullable)
    requires NullableAgrees(total, mine, c)
    ensures NullableAgrees(AddCount(total, NullableOfRow(row, c)), mine + [row], c)
  {
    var more := mine + [row];
    assert more[..|mine|] == mine && more[|mine|] == row;
    assert forall k :: 0 <= k < |mine| ==> more[k] == mine[k];
    if total.None? {
      UnmeasuredSum(mine, c);
    }
  }

  lemma OneMoreSum(mine: seq<CallRow>, row: CallRow)
    ensures forall c: Counter :: SumAll(mine + [row], c) == SumAll(mine, c) + OfRow(row, c)
    ensures SumMillis(mine + [row]) == SumMillis(mine) + row.wallMillis
  {
    assert (mine + [row])[..|mine|] == mine;
  }

  /** The rows are those of the calls, one each. */
  predicate Matches(calls: seq<ModelCall>, rows: seq<CallRow>) {
    |rows| == |calls| && forall k :: 0 <= k < |calls| ==> rows[k] == RowOf(rows[k].path, calls[k])
  }

  lemma {:induction false} RowsMatch(path: string, calls: seq<ModelCall>)
    ensures Matches(calls, RowsOf(path, calls))
    decreases |calls|
  {
    if calls != [] {
      RowsMatch(path, calls[..|calls| - 1]);
    }
  }

  lemma {:induction false} PaidMatches(rs: seq<Result>)
    ensures Matches(Paid(rs), PaidRows(rs))
    decreases |rs|
  {
    if rs != [] {
      var n := |rs| - 1;
      PaidMatches(rs[..n]);
      RowsMatch(rs[n].path, rs[n].verdict.modelCalls);
    }
  }

  /** The total with one more call agrees with the rows with one more row. */
  lemma OneMoreAgrees(t: ModelCall, mine: seq<CallRow>, row: CallRow, c: ModelCall)
    requires t.role == c.role && row == RowOf(row.path, c)
    requires mine != [] ==> Agrees(Some(t), c.role, mine)
    requires mine == [] ==> t == Started(c)
    ensures Agrees(Some(AddCall(t, c)), c.role, mine + [row])
  {
    var t', more := AddCall(t, c), mine + [row];
    OneMoreSum(mine, row);
    forall f: Nullable
      ensures NullableAgrees(NullableOfTotal(t', f), more, f)
    {
      OneMoreNullable(NullableOfTotal(t, f), mine, row, f);
    }
    assert WallExact(t'.wallNanos, more);
  }

  lemma {:induction false} RoleAgrees(calls: seq<ModelCall>, rows: seq<CallRow>, role: string)
    requires Matches(calls, rows)
    ensures Agrees(RoleTotal(calls, role), role, OfRole(rows, role))
    decreases |calls|
  {
    if calls != [] {
      var n := |calls| - 1;
      RoleAgrees(calls[..n], rows[..n], role);
      if calls[n].role == role {
        var before := RoleTotal(calls[..n], role);
        var t := if before.Some? then before.value else Started(calls[n]);
        OneMoreAgrees(t, OfRole(rows[..n], role), rows[n], calls[n]);
        assert rows[n].role == role;
        assert RoleTotal(calls, role) == Some(AddCall(t, calls[n]));
      }
    }
  }

  /** The printed total of a role is the sum of the rows the scan recorded for it,
      counter by counter; a nullable one is empty exactly when no row measured it;
      and the clocks differ by less than a millisecond per row. */
  lemma TotalsAreTheRows(results: seq<Result>, role: string)
    ensures var t := RoleTotal(Paid(Dedupe(results)), role);
            var mine := OfRole(PaidRows(Dedupe(results)), role);
            Agrees(t, role, mine) && (t.Some? ==> WallAgrees(t.value.wallNanos, mine))
  {
    PaidMatches(Dedupe(results));
    RoleAgrees(Paid(Dedupe(results)), PaidRows(Dedupe(results)), role);
    var t := RoleTotal(Paid(Dedupe(results)), role);
    if t.Some? {
      WallInMillis(t.value.wallNanos, OfRole(PaidRows(Dedupe(results)), role));
    }
  }

  /** The model the source's comment promises for a role: the first that is not
      empty. */
  function FirstNonEmptyModel(rows: seq<CallRow>): string
    decreases |rows|
  {
    if rows == [] then "" else if rows[0].model != "" then rows[0].model else FirstNonEmptyModel(rows[1..])
  }

  lemma {:induction false} NoModelNamed(rows: seq<CallRow>)
    ensures FirstNonEmptyModel(rows) == "" <==> forall k :: 0 <= k < |rows| ==> rows[k].model == ""
    decreases |rows|
  {
    if rows != [] {
      NoModelNamed(rows[1..]);
      assert forall k :: 1 <= k < |rows| ==> rows[k] == rows[1..][k - 1];
    }
  }

  /** The total carries that model exactly when the role's first row names one, or
      none of its rows does. */
  lemma ModelIsFirstNonEmpty(results: seq<Result>, role: string)
    requires RoleTotal(Paid(Dedupe(results)), role).Some?
    ensures var t := RoleTotal(Paid(Dedupe(results)), role).value;
            var mine := OfRole(PaidRows(Dedupe(results)), role);
            && mine != []
            && (t.model == FirstNonEmptyModel(mine) <==>
                  mine[0].model != "" || forall k :: 0 <= k < |mine| ==> mine[k].model == "")
  {
    TotalsAreTheRows(results, role);
    NoModelNamed(OfRole(PaidRows(Dedupe(results)), role));
  }

  /** Two calls of one role, the first without a model's name. */
  const Unnamed: ModelCall := ModelCall("test-writer", "", 1, None, 0, 0, None, None, 0, 0)
  const Named: ModelCall := Unnamed.(model := "m")

  /** The total of the role then names no model, though one was recorded. */
  lemma UnnamedModelIsKept()
    ensures RoleTotal([Unnamed, Named], "test-writer").Some? &&
              RoleTotal([Unnamed, Named], "test-writer").value.model == ""
    ensures FirstNonEmptyModel(RowsOf("a.go", [Unnamed, Named])) == "m"
  {
    var calls := [Unnamed, Named];
    var rows := RowsOf("a.go", calls);
    UnnamedRows();
    RowsMatch("a.go", calls);
    RoleAgrees(calls, rows, "test-writer");
    assert rows[1..] == [RowOf("a.go", Named)];
  }

  lemma UnnamedRows()
    ensures RowsOf("a.go", [Unnamed, Named]) == [RowOf("a.go", Unnamed), RowOf("a.go", Named)]
    ensures OfRole([RowOf("a.go", Unnamed), RowOf("a.go", Named)], "test-writer") ==
            [RowOf("a.go", Unnamed), RowOf("a.go", Named)]
  {
    var calls, rows := [Unnamed, Named], [RowOf("a.go", Unnamed), RowOf("a.go", Named)];
    assert calls[..1] == [Unnamed] && calls[..1][..0] == [];
    assert RowsOf("a.go", calls[..1]) == [RowOf("a.go", Unnamed)];
    assert rows[..1] == [RowOf("a.go", Unnamed)] && rows[..1][..0] == [];
    assert OfRole(rows[..1], "test-writer") == rows[..1];
  }

  /** Reused verdicts cost nothing on either side: the scan's rows and totals are
      those of its other results. */
  function Earned(rs: seq<Result>): seq<Result> {
    if rs == [] then []
    else
      var n := |rs| - 1;
      if rs[n].cacheHit then Earned(rs[..n]) else Earned(rs[..n]) + [rs[n]]
  }

  lemma PaidOneMore(rs: seq<Result>, r: Result)
    ensures Paid(rs + [r]) == if r.cacheHit then Paid(rs) else Paid(rs) + r.verdict.modelCalls
    ensures PaidRows(rs + [r]) ==
            if r.cacheHit then PaidRows(rs) else PaidRows(rs) + RowsOf(r.path, r.verdict.modelCalls)
  {
    assert (rs + [r])[..|rs|] == rs;
  }

  lemma {:induction false} ReuseIsFree(rs: seq<Result>)
    ensures Paid(rs) == Paid(Earned(rs)) && PaidRows(rs) == PaidRows(Earned(rs))
    decreases |rs|
  {
    if rs != [] {
      var n := |rs| - 1;
      ReuseIsFree(rs[..n]);
      assert rs == rs[..n] + [rs[n]];
      PaidOneMore(rs[..n], rs[n]);
      PaidOneMore(Earned(rs[..n]), rs[n]);
    }
  }

  // ---- The header and the printed totals ----

  function SumTotals(ts: seq<ModelCall>, c: Counter): nat {
    if ts == [] then 0 else SumTotals(ts[..|ts| - 1], c) + OfTotal(ts[|ts| - 1], c)
  }

  /** The rows of roles the roster does not have. */
  function OffRoster(rows: seq<CallRow>, roles: seq<string>): seq<CallRow> {
    if rows == [] then []
    else
      var n := |rows| - 1;
      if rows[n].role in roles then OffRoster(rows[..n], roles) else OffRoster(rows[..n], roles) + [rows[n]]
  }

  /** Taking a further role onto the roster moves its rows off the remainder. */
  lemma {:induction false} OneMoreRole(rows: seq<CallRow>, roles: seq<string>, role: string, c: Counter)
    requires role !in roles
    ensures SumAll(OffRoster(rows, roles), c) ==
              SumAll(OffRoster(rows, roles + [role]), c) + SumAll(OfRole(rows, role), c)
    decreases |rows|
  {
    if rows != [] {
      var n := |rows| - 1;
      var past, row := rows[..n], rows[n];
      OneMoreRole(past, roles, role, c);
      if row.role == role {
        OneMoreSum(OffRoster(past, roles), row);
        OneMoreSum(OfRole(past, role), row);
        assert row.role in roles + [role];
      } else if row.role !in roles {
        OneMoreSum(OffRoster(past, roles), row);
        OneMoreSum(OffRoster(past, roles + [role]), row);
        assert row.role !in roles + [role];
      }
    }
  }

  lemma {:induction false} NoRolesYet(rows: seq<CallRow>)
    ensures OffRoster(rows, []) == rows
    decreases |rows|
  {
    if rows != [] {
      NoRolesYet(rows[..|rows| - 1]);
    }
  }

  lemma {:induction false} RosterSums(calls: seq<ModelCall>, rows: seq<CallRow>, roles: seq<string>, c: Counter)
    requires Matches(calls, rows) && NoDup(roles)
    ensures SumAll(rows, c) == SumTotals(InRosterOrder(calls, roles), c) + SumAll(OffRoster(rows, roles), c)
    decreases |roles|
  {
    if roles == [] {
      NoRolesYet(rows);
    } else {
      var n := |roles| - 1;
      var past, role := roles[..n], roles[n];
      RosterSums(calls, rows, past, c);
      OneMoreRole(rows, past, role, c);
      assert past + [role] == roles;
      RoleAgrees(calls, rows, role);
      var t, listed := RoleTotal(calls, role), InRosterOrder(calls, roles);
      var before := InRosterOrder(calls, past);
      if t.Some? {
        assert listed == before + [t.value];
        assert listed[..|listed| - 1] == before && listed[|listed| - 1] == t.value;
        assert SumTotals(listed, c) == SumTotals(before, c) + OfTotal(t.value, c);
      } else {
        assert listed == before;
      }
    }
  }

  /** The header, summed over all rows, is what the printed totals sum to plus the
      rows of roles off the roster: the two agree exactly when those sum to 0. */
  lemma HeaderAgainstTotals(results: seq<Result>, c: Counter)
    ensures var rs := Dedupe(results);
            var rows := PaidRows(rs);
            && SumAll(rows, c) == SumTotals(InRosterOrder(Paid(rs), RosterRoleOrder), c) +
                 SumAll(OffRoster(rows, RosterRoleOrder), c)
  {
    var rs := Dedupe(results);
    PaidMatches(rs);
    RosterSums(Paid(rs), PaidRows(rs), RosterRoleOrder, c);
  }

  // ---- Which row is whose ----

  /** The row is the call's, under the result's path, column by column; only the
      clock is cut, to whole milliseconds. */
  predicate IsRowOf(row: CallRow, r: Result, c: ModelCall) {
    && row.path == r.path && row.role == c.role && row.model == c.model
    && row.calls == c.calls && row.retries == c.retries
    && row.inputTokens == c.inputTokens && row.outputTokens == c.outputTokens
    && row.cachedInput == c.cachedInput && row.cacheWrite == c.cacheWrite && row.unmeteredCalls == c.unmeteredCalls
    && row.wallMillis * 1_000_000 <= c.wallNanos < (row.wallMillis + 1) * 1_000_000
  }

  ghost predicate Bought(r: Result, row: CallRow) {
    !r.cacheHit && exists c :: c in r.verdict.modelCalls && IsRowOf(row, r, c)
  }

  lemma {:induction false} RowIsOfACall(r: Result, calls: seq<ModelCall>, row: CallRow)
    requires row in RowsOf(r.path, calls)
    ensures exists c :: c in calls && IsRowOf(row, r, c)
    decreases |calls|
  {
    var n := |calls| - 1;
    if row in RowsOf(r.path, calls[..n]) {
      RowIsOfACall(r, calls[..n], row);
      var c :| c in calls[..n] && IsRowOf(row, r, c);
      assert c in calls;
    } else {
      assert row == RowOf(r.path, calls[n]);
      assert calls[n] in calls && IsRowOf(row, r, calls[n]);
    }
  }

  lemma {:induction false} PaidRowIsBought(rs: seq<Result>, row: CallRow)
    requires row in PaidRows(rs)
    ensures exists i :: 0 <= i < |rs| && Bought(rs[i], row)
    decreases |rs|
  {
    var n := |rs| - 1;
    if row in PaidRows(rs[..n]) {
      PaidRowIsBought(rs[..n], row);
      var i :| 0 <= i < n && Bought(rs[..n][i], row);
      assert Bought(rs[i], row);
    } else {
      RowIsOfACall(rs[n], rs[n].verdict.modelCalls, row);
      assert Bought(rs[n], row);
    }
  }

  /** Every recorded row is one call of one kept result that was not reused, under
      that result's own path. */
  lemma RowsAreBought(results: seq<Result>, row: CallRow)
    requires row in PaidRows(Dedupe(results))
    ensures exists i :: 0 <= i < |Dedupe(results)| && Bought(Dedupe(results)[i], row)
  {
    PaidRowIsBought(Dedupe(results), row);
  }

  /** And there are as many rows as calls paid for. */
  lemma AsManyRowsAsCalls(results: seq<Result>)
    ensures |PaidRows(Dedupe(results))| == |Paid(Dedupe(results))|
  {
    PaidMatches(Dedupe(results));
  }

  // ---- The order of the totals ----

  lemma {:induction false} TotalHasItsRole(calls: seq<ModelCall>, role: string)
    ensures RoleTotal(calls, role).Some? ==> RoleTotal(calls, role).value.role == role
    ensures RoleTotal(calls, role).Some? <==> exists c :: c in calls && c.role == role
    decreases |calls|
  {
    if calls != [] {
      var n := |calls| - 1;
      TotalHasItsRole(calls[..n], role);
      assert calls == calls[..n] + [calls[n]];
    }
  }

  /** Where a role first stands in a list of roles. */
  function Place(roles: seq<string>, role: string): nat
    requires role in roles
  {
    var n := |roles| - 1;
    if role in roles[..n] then Place(roles[..n], role) else n
  }

  lemma {:induction false} PlaceIsThere(roles: seq<string>, role: string)
    requires role in roles
    ensures Place(roles, role) < |roles| && roles[Place(roles, role)] == role
    decreases |roles|
  {
    var n := |roles| - 1;
    if role in roles[..n] {
      PlaceIsThere(roles[..n], role);
    }
  }

  predicate ListedIn(out: seq<ModelCall>, roles: seq<string>) {
    forall a :: 0 <= a < |out| ==> out[a].role in roles
  }

  /** The totals stand in the order of the roles. */
  predicate InOrderOf(out: seq<ModelCall>, roles: seq<string>)
    requires ListedIn(out, roles)
  {
    forall a, b :: 0 <= a < b < |out| ==> Place(roles, out[a].role) < Place(roles, out[b].role)
  }

  /** Totals are listed in the order of the roles, and for exactly those roles that
      made a call. */
  lemma {:induction false} TotalsFollowRoles(calls: seq<ModelCall>, roles: seq<string>)
    requires NoDup(roles)
    ensures var out := InRosterOrder(calls, roles); ListedIn(out, roles) && InOrderOf(out, roles)
    decreases |roles|
  {
    if roles != [] {
      var n := |roles| - 1;
      var past, before, out := roles[..n], InRosterOrder(calls, roles[..n]), InRosterOrder(calls, roles);
      TotalsFollowRoles(calls, past);
      TotalHasItsRole(calls, roles[n]);
      forall a | 0 <= a < |before|
        ensures out[a].role in past && Place(roles, out[a].role) == Place(past, out[a].role) < n
      {
        assert out[a] == before[a];
        PlaceIsThere(past, out[a].role);
      }
      if |out| > |before| {
        assert out[|before|].role == roles[n] && roles[n] !in past;
        assert Place(roles, roles[n]) == n;
      }
    }
  }

  lemma {:induction false} SpendersAreListed(calls: seq<ModelCall>, roles: seq<string>, role: string)
    requires role in roles && exists c :: c in calls && c.role == role
    ensures exists a :: 0 <= a < |InRosterOrder(calls, roles)| && InRosterOrder(calls, roles)[a].role == role
    decreases |roles|
  {
    var n := |roles| - 1;
    var before, out := InRosterOrder(calls, roles[..n]), InRosterOrder(calls, roles);
    if role == roles[n] {
      TotalHasItsRole(calls, role);
      assert out[|before|].role == role;
    } else {
      assert role in roles[..n];
      SpendersAreListed(calls, roles[..n], role);
      var a :| 0 <= a < |before| && before[a].role == role;
      assert out[a] == before[a];
    }
  }

  /** The printed totals are in the order the roster is presented in: the seat that
      plants the fault, the one that has to catch it, the one that grades the catch,
      and the two challengers; none that made a call is missing. */
  lemma TotalsInRosterOrder(results: seq<Result>, role: string)
    ensures var roster :=
              ["mutant-generator", "test-writer", "test-critic", "mutant-generator-shadow", "test-writer-shadow"];
            var out := InRosterOrder(Paid(Dedupe(results)), RosterRoleOrder);
            && ListedIn(out, roster) && InOrderOf(out, roster)
            && (role in roster && (exists c :: c in Paid(Dedupe(results)) && c.role == role) ==>
                  exists a :: 0 <= a < |out| && out[a].role == role)
  {
    var calls := Paid(Dedupe(results));
    RolesDiffer();
    TotalsFollowRoles(calls, RosterRoleOrder);
    if role in RosterRoleOrder && exists c :: c in calls && c.role == role {
      SpendersAreListed(calls, RosterRoleOrder, role);
    }
  }

  lemma RolesDiffer()
    ensures NoDup(RosterRoleOrder)
  {
    var roles := RosterRoleOrder;
    assert |roles[0]| == 16 && |roles[1]| == 11 && |roles[2]| == 11 && |roles[3]| == 23 && |roles[4]| == 18;
    assert roles[1][5] != roles[2][5];
  }
}
