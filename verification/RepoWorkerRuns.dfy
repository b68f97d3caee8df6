/** The promises of the remote worker's queue loop, over every run of it. */
module RepoWorkerRuns {
  import opened RepoWorker
  import opened RepoWorkerSafety

  /** The log after any run from a fresh worker. */
  ghost function RunLog(tasks: seq<Task>): seq<Event>
    requires Ready(tasks)
  {
    Rounds(NewWorker, tasks).log
  }

  /** Whatever was written in a mirrored mission before the gate is asked to
      complete one of its tasks went with a push in between: the brain accepted
      it, or its file could not be read when the push was built. */
  lemma WritesLandBeforeTheGate(tasks: seq<Task>, i: nat, j: nat, m: nat, p: string)
    requires Ready(tasks)
    requires i < j < |RunLog(tasks)| && RunLog(tasks)[i] == Wrote(m, p)
    requires RunLog(tasks)[j].GateComplete? && RunLog(tasks)[j].mission == m && Mirrored(RunLog(tasks)[..j], m)
    ensures exists k :: i < k < j && Settles(RunLog(tasks)[k], m, p)
  {
    RoundsKeep(tasks);
    var log := RunLog(tasks);
    var past := log[..j];
    assert Allowed(past, log[j]);
    OwedIsOpen(past, m, p);
    assert !OpenSince(past, m, p, i);
    var k :| i < k < |past| && Settles(past[k], m, p);
    assert log[k] == past[k];
  }

  /** The k-th event is the first to settle the write made at i. */
  predicate SettledBy(log: seq<Event>, m: nat, p: string, i: nat, k: nat) {
    i < k < |log| && Settles(log[k], m, p) && forall l :: i < l < k ==> !Settles(log[l], m, p)
  }

  lemma {:induction false} FirstSettler(log: seq<Event>, m: nat, p: string, i: nat, k: nat) returns (first: nat)
    requires i < k < |log| && Settles(log[k], m, p)
    ensures first <= k && SettledBy(log, m, p, i, first)
    decreases k
  {
    if l :| i < l < k && Settles(log[l], m, p) {
      first := FirstSettler(log, m, p, i, l);
    } else {
      first := k;
    }
  }

  /** An event that settles a path accepts it or leaves it out, never both, and the
      path was open until then. */
  lemma SettlesOneWay(log: seq<Event>, m: nat, p: string, k: nat)
    requires Sound(log) && k < |log| && Settles(log[k], m, p)
    ensures Accepts(log[k], m, p) <==> !LeavesOut(log[k], m, p)
    ensures p in Owed(log[..k], m)
  {
    assert Allowed(log[..k], log[k]);
  }

  /** A path settled once is not settled again before it is written again. */
  lemma SettledOnce(log: seq<Event>, m: nat, p: string, k: nat, l: nat)
    requires Sound(log) && k < l < |log| && Settles(log[k], m, p)
    requires forall i :: k < i < l ==> log[i] != Wrote(m, p)
    ensures !Settles(log[l], m, p)
  {
    var past := log[..l];
    OwedIsOpen(past, m, p);
    assert past[k] == log[k];
    forall i
      ensures !OpenSince(past, m, p, i)
    {
      if 0 <= i < l && k < i {
        assert past[i] == log[i];
      }
    }
    assert Allowed(past, log[l]);
  }

  /** The fate of each write: before the gate is asked, the first push that could
      carry it either had it accepted or left it out as unreadable. */
  lemma WriteIsAcceptedOrUnreadable(tasks: seq<Task>, i: nat, j: nat, m: nat, p: string)
    requires Ready(tasks)
    requires i < j < |RunLog(tasks)| && RunLog(tasks)[i] == Wrote(m, p)
    requires RunLog(tasks)[j].GateComplete? && RunLog(tasks)[j].mission == m && Mirrored(RunLog(tasks)[..j], m)
    ensures exists k: nat :: k < j && SettledBy(RunLog(tasks), m, p, i, k) &&
              (Accepts(RunLog(tasks)[k], m, p) <==> !LeavesOut(RunLog(tasks)[k], m, p))
  {
    RoundsKeep(tasks);
    WritesLandBeforeTheGate(tasks, i, j, m, p);
    var log := RunLog(tasks);
    var k :| i < k < j && Settles(log[k], m, p);
    var first := FirstSettler(log, m, p, i, k);
    SettlesOneWay(log, m, p, first);
  }

  /** So a task completes without its last write of a path ever accepted exactly
      when a push found the file unreadable and left it out. */
  lemma UnacceptedExactlyWhenUnreadable(tasks: seq<Task>, i: nat, j: nat, m: nat, p: string)
    requires Ready(tasks)
    requires i < j < |RunLog(tasks)| && RunLog(tasks)[i] == Wrote(m, p)
    requires forall k :: i < k < j ==> RunLog(tasks)[k] != Wrote(m, p)
    requires RunLog(tasks)[j].GateComplete? && RunLog(tasks)[j].mission == m && Mirrored(RunLog(tasks)[..j], m)
    ensures (forall k :: i < k < j ==> !Accepts(RunLog(tasks)[k], m, p)) <==>
            (exists k :: i < k < j && LeavesOut(RunLog(tasks)[k], m, p))
  {
    RoundsKeep(tasks);
    var log := RunLog(tasks);
    WriteIsAcceptedOrUnreadable(tasks, i, j, m, p);
    var first: nat :| first < j && SettledBy(log, m, p, i, first) &&
      (Accepts(log[first], m, p) <==> !LeavesOut(log[first], m, p));
    forall k | i < k < j && k != first
      ensures !Settles(log[k], m, p)
    {
      if first < k {
        SettledOnce(log, m, p, first, k);
      }
    }
  }

  /** A write of a mirrored mission whose file cannot be read when it is pushed. */
  const UnreadableTask: Task :=
    Task(7, 1, "builder", Snapshot("r0", true), [ToolStep(true, true, "a.go")], false,
         [Attempt({}, Accepted("r1")), Attempt({}, PushError), Attempt({}, PushError)], true, "")

  const UnreadableLog: seq<Event> :=
    [AskedSnapshot(1, Snapshot("r0", true)), Wrote(1, "a.go"), NothingLeft(1, {"a.go"}), GateComplete(7, 1, true)]

  /** Such a run: the push sends nothing, succeeds, and the task completes. */
  lemma UnreadableWriteIsDropped()
    ensures Ready([UnreadableTask]) && RunLog([UnreadableTask]) == UnreadableLog
    ensures Mirrored(UnreadableLog[..3], 1) && LeavesOut(UnreadableLog[2], 1, "a.go")
  {
    var t := UnreadableTask;
    var w1 := EnsureState(NewWorker, 1, t.snapshot);
    var ran := TrackState(w1, 1, "a.go");
    assert t.steps[..0] == [];
    assert TrackSteps(w1, 1, []) == w1;
    assert RunTask(NewWorker, t) == ran;
    assert Tracked(ran.mirror, 1) == {"a.go"};
    assert ran.log == UnreadableLog[..2];
    var pushed := PushState(ran, 1, {}, Accepted("r1"));
    assert PushAttempts(ran, 1, t.attempts) == pushed;
    assert PushOk(ran, 1, t.attempts[0].readable, t.attempts[0].reply);
    assert pushed.log == UnreadableLog[..3];
    assert Gate(pushed, t).log == UnreadableLog;
    assert [t][..0] == [];
    assert Rounds(NewWorker, []) == NewWorker;
    assert LaidDown(UnreadableLog[..3][0], 1);
  }

  predicate Written(log: seq<Event>, m: nat) {
    exists i :: 0 <= i < |log| && log[i].Wrote? && log[i].mission == m
  }

  /** Without a mirror nothing written is ever settled. */
  lemma UnmirroredOwesAll(log: seq<Event>, m: nat)
    requires Sound(log) && !Mirrored(log, m)
    ensures Owed(log, m) != {} <==> Written(log, m)
  {
    forall k, p: string | 0 <= k < |log|
      ensures !Settles(log[k], m, p)
    {
      assert Allowed(log[..k], log[k]);
      assert Mirrored(log[..k], m) ==> Mirrored(log, m);
    }
    forall i | 0 <= i < |log| && log[i].Wrote? && log[i].mission == m
      ensures log[i].path in Owed(log, m)
    {
      assert OpenSince(log, m, log[i].path, i);
      OwedIsOpen(log, m, log[i].path);
    }
    forall p | p in Owed(log, m)
      ensures Written(log, m)
    {
      OwedIsOpen(log, m, p);
      var i :| OpenSince(log, m, p, i);
      assert log[i].Wrote? && log[i].mission == m;
    }
  }

  /** The gate is asked while writes are still owed exactly when the mission was
      never mirrored, which is the guard of the push, and something was written. */
  lemma GateWithUnlandedWrites(tasks: seq<Task>, j: nat)
    requires Ready(tasks) && j < |RunLog(tasks)| && RunLog(tasks)[j].GateComplete?
    ensures var past, m := RunLog(tasks)[..j], RunLog(tasks)[j].mission;
            Owed(past, m) != {} <==> !Mirrored(past, m) && Written(past, m)
  {
    RoundsKeep(tasks);
    var log := RunLog(tasks);
    var past, m := log[..j], log[j].mission;
    assert Allowed(past, log[j]);
    assert Sound(past) by {
      forall k | 0 <= k < |past|
        ensures Allowed(past[..k], past[k])
      {
        assert past[..k] == log[..k];
      }
    }
    if !Mirrored(past, m) {
      UnmirroredOwesAll(past, m);
    }
  }

  /** A plain task of one successful write to a.go whose snapshot call failed. */
  const LostTask: Task :=
    Task(7, 1, "builder", SnapshotError, [ToolStep(true, true, "a.go")], false,
         [Attempt({"a.go"}, Accepted("r1")), Attempt({}, PushError), Attempt({}, PushError)], true, "")

  const LostLog: seq<Event> := [AskedSnapshot(1, SnapshotError), Wrote(1, "a.go"), GateComplete(7, 1, true)]

  lemma LostTaskRuns()
    ensures RunTask(NewWorker, LostTask) ==
            TrackState(EnsureState(NewWorker, 1, SnapshotError), 1, "a.go")
  {
    var w1 := EnsureState(NewWorker, 1, SnapshotError);
    assert LostTask.steps[..0] == [];
    assert TrackSteps(w1, 1, []) == w1;
  }

  /** Such a run: the first snapshot of a mission fails in transit, so its task
      runs in the shared workspace and completes with its write unsent. */
  lemma FailedSnapshotCompletesUnsent()
    ensures Ready([LostTask]) && RunLog([LostTask]) == LostLog
    ensures Owed(LostLog[..2], 1) == {"a.go"}
  {
    LostTaskRuns();
    var ran := RunTask(NewWorker, LostTask);
    assert ran.log == LostLog[..2];
    assert !IsRepo(ran.mirror, 1);
    assert Round(NewWorker, LostTask) == Gate(ran, LostTask);
    assert Gate(ran, LostTask).log == LostLog;
    assert [LostTask][..0] == [];
    assert Rounds(NewWorker, []) == NewWorker;
    assert Owed(LostLog[..1], 1) == {} by {
      assert LostLog[..1][..0] == [];
    }
    assert LostLog[..2][..1] == LostLog[..1];
  }

  /** A push carries only paths that were written in that mission and are still
      open, leaves out only the ones that cannot be read, and names the last base
      revision the brain gave. */
  lemma OnlyOpenWritesAreSent(tasks: seq<Task>, j: nat)
    requires Ready(tasks) && j < |RunLog(tasks)| && RunLog(tasks)[j].SentPush?
    ensures var past, e := RunLog(tasks)[..j], RunLog(tasks)[j];
            && Mirrored(past, e.mission) && e.files != {} && e.files !! e.missing
            && e.base == BaseOf(past, e.mission)
            && forall p :: p in e.files || p in e.missing <==> exists i :: OpenSince(past, e.mission, p, i)
  {
    RoundsKeep(tasks);
    var log := RunLog(tasks);
    var past, e := log[..j], log[j];
    assert Allowed(past, e);
    forall p
      ensures p in e.files || p in e.missing <==> exists i :: OpenSince(past, e.mission, p, i)
    {
      OwedIsOpen(past, e.mission, p);
    }
  }

  /** The snapshot of a mission is asked for at most once in a run. */
  lemma SnapshotAskedOnce(tasks: seq<Task>, i: nat, j: nat)
    requires Ready(tasks) && i < j < |RunLog(tasks)|
    requires RunLog(tasks)[i].AskedSnapshot? && RunLog(tasks)[j].AskedSnapshot?
    ensures RunLog(tasks)[i].mission != RunLog(tasks)[j].mission
  {
    RoundsKeep(tasks);
    var log := RunLog(tasks);
    assert Allowed(log[..j], log[j]);
    assert log[..j][i] == log[i];
  }

  /** What the mirror has settled about a mission stays settled. */
  ghost predicate Settled(a: Worker, b: Worker) {
    forall m :: Known(a.mirror, m) ==> Known(b.mirror, m) && (IsRepo(b.mirror, m) <==> IsRepo(a.mirror, m))
  }

  lemma {:induction false} StepsSettle(w: Worker, mission: nat, steps: seq<ToolStep>)
    ensures Settled(w, TrackSteps(w, mission, steps))
    decreases |steps|
  {
    if steps != [] {
      StepsSettle(w, mission, steps[..|steps| - 1]);
    }
  }

  lemma {:induction false} AttemptsSettle(w: Worker, mission: nat, attempts: seq<Attempt>)
    ensures Settled(w, PushAttempts(w, mission, attempts))
    decreases |attempts|
  {
    if attempts != [] {
      AttemptsSettle(PushState(w, mission, attempts[0].readable, attempts[0].reply), mission, attempts[1..]);
    }
  }

  lemma EnsureSettles(w: Worker, mission: nat, reply: SnapshotReply)
    ensures Settled(w, EnsureState(w, mission, reply))
  {
  }

  lemma RunSettles(w: Worker, t: Task)
    ensures Settled(w, RunTask(w, t))
  {
    if !IsFast(t.role) {
      var ensured := EnsureState(w, t.mission, t.snapshot);
      EnsureSettles(w, t.mission, t.snapshot);
      StepsSettle(ensured, t.mission, t.steps);
      SettledThrough(w, ensured, TrackSteps(ensured, t.mission, t.steps));
    }
  }

  lemma SettledThrough(a: Worker, b: Worker, c: Worker)
    requires Settled(a, b) && Settled(b, c)
    ensures Settled(a, c)
  {
  }

  lemma RoundSettles(w: Worker, t: Task)
    requires |t.attempts| == PushMaxAttempts
    ensures Settled(w, Round(w, t))
  {
    RunSettles(w, t);
    var ran := RunTask(w, t);
    AttemptsSettle(ran, t.mission, t.attempts);
    assert Gate(ran, t).mirror == ran.mirror;
    var pushed := PushAttempts(ran, t.mission, t.attempts);
    assert Gate(pushed, t).mirror == pushed.mirror;
    assert Settled(ran, Round(w, t));
  }

  lemma {:induction false} RoundsSettle(w: Worker, tasks: seq<Task>)
    requires Ready(tasks)
    ensures Settled(w, Rounds(w, tasks))
    decreases |tasks|
  {
    if tasks != [] {
      RoundsSettle(w, tasks[..|tasks| - 1]);
      RoundSettles(Rounds(w, tasks[..|tasks| - 1]), tasks[|tasks| - 1]);
    }
  }

  /** From the second call on ensure repeats one answer, whatever ran in between
      and whatever the brain would say now: in the mirror exactly when the first
      call laid the snapshot down. A first call that failed is never retried. */
  lemma EnsureIsConstant(earlier: seq<Task>, mission: nat, first: SnapshotReply, tasks: seq<Task>, later: SnapshotReply)
    requires Ready(earlier) && Ready(tasks)
    ensures var w := Rounds(NewWorker, earlier);
            var w' := Rounds(EnsureState(w, mission, first), tasks);
            && EnsureAnswer(w', mission, later) ==
               (if EnsureAnswer(w, mission, first) == InMirror then InMirror else NoMirror)
            && EnsureState(w', mission, later) == w'
  {
    var w := Rounds(NewWorker, earlier);
    RoundsKeep(earlier);
    assert MirrorAgrees(w.mirror, w.log, mission);
    LaidMeansAsked(w.log, mission);
    var w1 := EnsureState(w, mission, first);
    assert Known(w1.mirror, mission);
    RoundsSettle(w1, tasks);
  }

  /** A finding about a stalled task follows exactly the refusals that bring its
      run of refusals to the cap: never before, never again until it is broken. */
  lemma StallIsReportedAtTheCap(tasks: seq<Task>, j: nat)
    requires Ready(tasks) && j < |RunLog(tasks)| && RunLog(tasks)[j].GateComplete?
    ensures var log, e := RunLog(tasks), RunLog(tasks)[j];
            (!e.ok && Streak(log[..j + 1], e.task) == 5) <==>
            (j + 1 < |log| && log[j + 1] == Reported(e.task, e.mission, "note"))
  {
    RoundsKeep(tasks);
    var log := RunLog(tasks);
    if j + 1 < |log| {
      assert Allowed(log[..j + 1], log[j + 1]);
      assert log[..j + 1][|log[..j + 1]| - 1] == log[j];
    }
  }

  /** A lost push is reported only right after three pushes in a row have failed. */
  lemma RegressionFollowsThreeFailures(tasks: seq<Task>, j: nat)
    requires Ready(tasks) && j < |RunLog(tasks)|
    requires RunLog(tasks)[j].Reported? && RunLog(tasks)[j].kind == "regression"
    ensures j >= PushMaxAttempts
    ensures forall k :: j - PushMaxAttempts <= k < j ==> FailedPush(RunLog(tasks)[k], RunLog(tasks)[j].mission)
  {
    RoundsKeep(tasks);
    var log := RunLog(tasks);
    assert Allowed(log[..j], log[j]);
    assert forall k :: 0 <= k < j ==> log[..j][k] == log[k];
  }

  /** Running a task on its own only asks for snapshots and writes. */
  lemma {:induction false} StepsOnlyWrite(w: Worker, mission: nat, steps: seq<ToolStep>)
    ensures w.log <= TrackSteps(w, mission, steps).log
    ensures forall e :: e in TrackSteps(w, mission, steps).log[|w.log|..] ==> e.Wrote?
    decreases |steps|
  {
    if steps == [] {
      assert w.log[|w.log|..] == [];
    } else {
      var before := TrackSteps(w, mission, steps[..|steps| - 1]);
      StepsOnlyWrite(w, mission, steps[..|steps| - 1]);
      var after := TrackSteps(w, mission, steps);
      assert forall e :: e in after.log[|w.log|..] ==> e in before.log[|w.log|..] || e.Wrote?;
    }
  }

  lemma RunOnlyAsksAndWrites(w: Worker, t: Task)
    ensures w.log <= RunTask(w, t).log
    ensures forall e :: e in RunTask(w, t).log[|w.log|..] ==> e.Wrote? || e.AskedSnapshot?
  {
    var ran := RunTask(w, t);
    if !IsFast(t.role) {
      var ensured := EnsureState(w, t.mission, t.snapshot);
      StepsOnlyWrite(ensured, t.mission, t.steps);
      assert ran.log[|w.log|..] == ensured.log[|w.log|..] + ran.log[|ensured.log|..];
    }
  }

  /** A round whose model was unreachable sends nothing and asks no gate: a shadow
      seat's task is completed as unmeasured and never released, any other task is
      released and never completed, and what is owed stays owed. */
  lemma UnreachableCompletesNothing(w: Worker, t: Task)
    requires t.unreachable && |t.attempts| == PushMaxAttempts
    ensures w.log <= RunTask(w, t).log
    ensures forall e :: e in RunTask(w, t).log[|w.log|..] ==> e.Wrote? || e.AskedSnapshot?
    ensures Round(w, t).log == RunTask(w, t).log +
              [if t.role in {"mutant-generator-shadow", "test-writer-shadow"} then ShadowComplete(t.id, t.mission)
               else Released(t.id),
               Reported(t.id, t.mission, "ops")]
    ensures Round(w, t).mirror == RunTask(w, t).mirror
  {
    RunOnlyAsksAndWrites(w, t);
  }
}
