/** Where the events of a run come from: which task, step or attempt each write
    and each push is owed to, and what the worker remembers of a refusal. */
module RepoWorkerOrigins {
  import opened RepoWorker
  import opened RepoWorkerSafety
  import opened RepoWorkerRuns

  // ---- Pushes ----

  /** The event is what attempt a makes of the mission's files: what could be read
      is sent and answered so, what could not is left out. */
  predicate SplitBy(e: Event, mission: nat, a: Attempt) {
    match e
    case SentPush(m, files, missing, _, answer) =>
      && m == mission && answer == a.reply
      && (forall p :: p in files ==> p in a.readable)
      && (forall p :: p in missing ==> p !in a.readable)
    case NothingLeft(m, missing) => m == mission && forall p :: p in missing ==> p !in a.readable
    case _ => false
  }

  predicate IsPush(e: Event) {
    e.SentPush? || e.NothingLeft?
  }

  /** One push: nothing is logged when nothing is tracked; otherwise one event that
      splits exactly the tracked files by whether they could be read. */
  lemma PushSplitsTheTracked(w: Worker, mission: nat, readable: set<string>, reply: PushReply)
    ensures var log, tracked := PushState(w, mission, readable, reply).log, Tracked(w.mirror, mission);
            && (tracked == {} ==> log == w.log)
            && (tracked != {} ==>
                  && |log| == |w.log| + 1 && log[..|w.log|] == w.log
                  && IsPush(log[|w.log|]) && SplitBy(log[|w.log|], mission, Attempt(readable, reply))
                  && (log[|w.log|].SentPush? <==> exists p :: p in tracked && p in readable)
                  && (forall p :: p in tracked <==>
                        p in log[|w.log|].missing || (log[|w.log|].SentPush? && p in log[|w.log|].files)))
  {
    var tracked := Tracked(w.mirror, mission);
    if tracked != {} {
      assert tracked * readable != {} <==> exists p :: p in tracked && p in readable by {
        if p :| p in tracked && p in readable {
          assert p in tracked * readable;
        }
      }
    }
  }

  ghost predicate PushedBy(e: Event, t: Task) {
    exists k :: 0 <= k < |t.attempts| && SplitBy(e, t.mission, t.attempts[k])
  }

  lemma {:induction false} AttemptsPush(w: Worker, mission: nat, attempts: seq<Attempt>, e: Event)
    requires e in PushAttempts(w, mission, attempts).log && e !in w.log
    ensures IsPush(e) && exists k :: 0 <= k < |attempts| && SplitBy(e, mission, attempts[k])
    decreases |attempts|
  {
    if attempts != [] {
      var a, rest := attempts[0], attempts[1..];
      var w1 := PushState(w, mission, a.readable, a.reply);
      PushSplitsTheTracked(w, mission, a.readable, a.reply);
      if e in w1.log {
        assert SplitBy(e, mission, attempts[0]);
      } else {
        AttemptsPush(w1, mission, rest, e);
        var k :| 0 <= k < |rest| && SplitBy(e, mission, rest[k]);
        assert attempts[k + 1] == rest[k];
      }
    }
  }

  lemma RunPushesNothing(w: Worker, t: Task, e: Event)
    requires e in RunTask(w, t).log && IsPush(e)
    ensures e in w.log
  {
    RunOnlyAsksAndWrites(w, t);
    var log := RunTask(w, t).log;
    assert log == w.log + log[|w.log|..];
  }

  lemma RoundPushes(w: Worker, t: Task, e: Event)
    requires |t.attempts| == PushMaxAttempts && e in Round(w, t).log && IsPush(e)
    ensures e in w.log || PushedBy(e, t)
  {
    var ran := RunTask(w, t);
    if e in ran.log {
      RunPushesNothing(w, t, e);
    } else if !t.unreachable && IsRepo(ran.mirror, t.mission) {
      assert e in PushAttempts(ran, t.mission, t.attempts).log;
      AttemptsPush(ran, t.mission, t.attempts, e);
    }
  }

  /** Every push of a run was an attempt of one of its tasks: what it sent that
      attempt could read, what it left out that attempt could not. */
  lemma {:induction false} PushesComeFromAttempts(tasks: seq<Task>, e: Event)
    requires Ready(tasks) && e in RunLog(tasks) && IsPush(e)
    ensures exists i :: 0 <= i < |tasks| && PushedBy(e, tasks[i])
    decreases |tasks|
  {
    if tasks != [] {
      var n := |tasks| - 1;
      RoundPushes(Rounds(NewWorker, tasks[..n]), tasks[n], e);
      if e in RunLog(tasks[..n]) {
        PushesComeFromAttempts(tasks[..n], e);
        var i :| 0 <= i < n && PushedBy(e, tasks[..n][i]);
        assert tasks[i] == tasks[..n][i];
      }
    }
  }

  /** The attempt decided the path's fate: it could read the file and the brain
      took the push, or it could not read the file. */
  predicate Decided(a: Attempt, accepted: bool, p: string) {
    if accepted then p in a.readable && a.reply.Accepted? else p !in a.readable
  }

  ghost predicate DecidedBy(t: Task, accepted: bool, m: nat, p: string) {
    t.mission == m && exists k :: 0 <= k < |t.attempts| && Decided(t.attempts[k], accepted, p)
  }

  /** So whatever a run has accepted was readable when it was sent, and whatever it
      has left out was not. */
  lemma FateComesFromAnAttempt(tasks: seq<Task>, j: nat, m: nat, p: string)
    requires Ready(tasks) && j < |RunLog(tasks)| && Settles(RunLog(tasks)[j], m, p)
    ensures exists i :: 0 <= i < |tasks| && DecidedBy(tasks[i], Accepts(RunLog(tasks)[j], m, p), m, p)
  {
    var e := RunLog(tasks)[j];
    PushesComeFromAttempts(tasks, e);
    var i :| 0 <= i < |tasks| && PushedBy(e, tasks[i]);
    var k :| 0 <= k < |tasks[i].attempts| && SplitBy(e, tasks[i].mission, tasks[i].attempts[k]);
    assert Decided(tasks[i].attempts[k], Accepts(e, m, p), p);
  }

  // ---- Writes ----

  /** The writes of a log, in order. */
  function WritesIn(log: seq<Event>): seq<(nat, string)> {
    if log == [] then []
    else
      var n, e := |log| - 1, log[|log| - 1];
      if e.Wrote? then WritesIn(log[..n]) + [(e.mission, e.path)] else WritesIn(log[..n])
  }

  /** The paths a task's tool calls wrote successfully, in order. */
  function Written(mission: nat, steps: seq<ToolStep>): seq<(nat, string)> {
    if steps == [] then []
    else
      var n, s := |steps| - 1, steps[|steps| - 1];
      if s.writes && s.ok && s.path != "" then Written(mission, steps[..n]) + [(mission, s.path)]
      else Written(mission, steps[..n])
  }

  /** Roles answered by one model call, which has no tools to write with. */
  predicate HasNoTools(role: string) {
    role in {"test-writer", "mutant-generator", "test-critic", "mutant-generator-shadow", "test-writer-shadow"}
  }

  function WrittenBy(tasks: seq<Task>): seq<(nat, string)> {
    if tasks == [] then []
    else
      var n, t := |tasks| - 1, tasks[|tasks| - 1];
      if HasNoTools(t.role) then WrittenBy(tasks[..n]) else WrittenBy(tasks[..n]) + Written(t.mission, t.steps)
  }

  lemma OneMoreEvent(log: seq<Event>, e: Event)
    ensures WritesIn(log + [e]) == if e.Wrote? then WritesIn(log) + [(e.mission, e.path)] else WritesIn(log)
  {
    assert (log + [e])[..|log|] == log;
  }

  lemma {:induction false} StepsWrite(w: Worker, mission: nat, steps: seq<ToolStep>)
    ensures WritesIn(TrackSteps(w, mission, steps).log) == WritesIn(w.log) + Written(mission, steps)
    decreases |steps|
  {
    if steps != [] {
      var n := |steps| - 1;
      StepsWrite(w, mission, steps[..n]);
      OneMoreEvent(TrackSteps(w, mission, steps[..n]).log, Wrote(mission, steps[n].path));
    }
  }

  lemma RunWrites(w: Worker, t: Task)
    ensures WritesIn(RunTask(w, t).log) ==
            if HasNoTools(t.role) then WritesIn(w.log) else WritesIn(w.log) + Written(t.mission, t.steps)
  {
    if !IsFast(t.role) {
      OneMoreEvent(w.log, AskedSnapshot(t.mission, t.snapshot));
      StepsWrite(EnsureState(w, t.mission, t.snapshot), t.mission, t.steps);
    }
  }

  lemma {:induction false} AttemptsWriteNothing(w: Worker, mission: nat, attempts: seq<Attempt>)
    ensures WritesIn(PushAttempts(w, mission, attempts).log) == WritesIn(w.log)
    decreases |attempts|
  {
    if attempts != [] {
      var a := attempts[0];
      var w1 := PushState(w, mission, a.readable, a.reply);
      PushSplitsTheTracked(w, mission, a.readable, a.reply);
      if Tracked(w.mirror, mission) != {} {
        assert w1.log == w.log + [w1.log[|w.log|]];
        OneMoreEvent(w.log, w1.log[|w.log|]);
      }
      AttemptsWriteNothing(w1, mission, attempts[1..]);
    }
  }

  lemma GateWritesNothing(w: Worker, t: Task)
    ensures WritesIn(Gate(w, t).log) == WritesIn(w.log)
  {
    var e := GateComplete(t.id, t.mission, t.gateOk);
    OneMoreEvent(w.log, e);
    OneMoreEvent(w.log + [e], Reported(t.id, t.mission, "note"));
  }

  lemma RoundWrites(w: Worker, t: Task)
    requires |t.attempts| == PushMaxAttempts
    ensures WritesIn(Round(w, t).log) == WritesIn(RunTask(w, t).log)
  {
    var ran := RunTask(w, t);
    if t.unreachable {
      var e := if IsShadow(t.role) then ShadowComplete(t.id, t.mission) else Released(t.id);
      OneMoreEvent(ran.log, e);
      OneMoreEvent(ran.log + [e], Reported(t.id, t.mission, "ops"));
    } else if IsRepo(ran.mirror, t.mission) {
      var pushed := PushAttempts(ran, t.mission, t.attempts);
      AttemptsWriteNothing(ran, t.mission, t.attempts);
      GateWritesNothing(pushed, t);
      OneMoreEvent(pushed.log, Reported(t.id, t.mission, "regression"));
    } else {
      GateWritesNothing(ran, t);
    }
  }

  /** The writes tracked in a run are exactly the successful writes of its tasks'
      tool calls, in order: none is missed and none made up. */
  lemma {:induction false} WritesComeFromSteps(tasks: seq<Task>)
    requires Ready(tasks)
    ensures WritesIn(RunLog(tasks)) == WrittenBy(tasks)
    decreases |tasks|
  {
    if tasks != [] {
      var n := |tasks| - 1;
      WritesComeFromSteps(tasks[..n]);
      RoundWrites(Rounds(NewWorker, tasks[..n]), tasks[n]);
      RunWrites(Rounds(NewWorker, tasks[..n]), tasks[n]);
    }
  }

  // ---- Refusals ----

  /** The books on a task: it has a message exactly while it is being refused, and
      the message says something. */
  ghost predicate Booked(w: Worker, id: nat) {
    && (id in w.refusalMsg <==> id in w.refusals)
    && (id in w.refusals ==> w.refusals[id] > 0)
    && (id in w.refusalMsg ==> w.refusalMsg[id] != "")
  }

  /** What asking the gate leaves: the task's own entry gone on success, its count
      one higher and the gate's last words kept on a refusal, no other touched. */
  lemma GateBooks(w: Worker, t: Task, id: nat)
    requires Booked(w, id)
    ensures var w' := Gate(w, t);
            && Booked(w', id)
            && (id == t.id && t.gateOk ==> id !in w'.refusalMsg)
            && (id == t.id && !t.gateOk ==>
                  id in w'.refusalMsg && (t.gateMessage != "" ==> w'.refusalMsg[id] == t.gateMessage))
            && (id != t.id ==>
                  (id in w'.refusalMsg <==> id in w.refusalMsg)
                  && (id in w.refusalMsg ==> w'.refusalMsg[id] == w.refusalMsg[id]))
  {
  }

  lemma {:induction false} StepsLeaveBooks(w: Worker, mission: nat, steps: seq<ToolStep>)
    ensures TrackSteps(w, mission, steps).refusals == w.refusals
    ensures TrackSteps(w, mission, steps).refusalMsg == w.refusalMsg
    decreases |steps|
  {
    if steps != [] {
      StepsLeaveBooks(w, mission, steps[..|steps| - 1]);
    }
  }

  lemma {:induction false} AttemptsLeaveBooks(w: Worker, mission: nat, attempts: seq<Attempt>)
    ensures PushAttempts(w, mission, attempts).refusals == w.refusals
    ensures PushAttempts(w, mission, attempts).refusalMsg == w.refusalMsg
    decreases |attempts|
  {
    if attempts != [] {
      AttemptsLeaveBooks(PushState(w, mission, attempts[0].readable, attempts[0].reply), mission, attempts[1..]);
    }
  }

  lemma RoundBooks(w: Worker, t: Task, id: nat)
    requires Booked(w, id) && |t.attempts| == PushMaxAttempts
    ensures Booked(Round(w, t), id)
  {
    var ran := RunTask(w, t);
    StepsLeaveBooks(EnsureState(w, t.mission, t.snapshot), t.mission, t.steps);
    assert Booked(ran, id);
    var pushed := PushAttempts(ran, t.mission, t.attempts);
    AttemptsLeaveBooks(ran, t.mission, t.attempts);
    assert Booked(pushed, id);
    GateBooks(ran, t, id);
    GateBooks(pushed, t, id);
  }

  lemma {:induction false} RoundsBook(tasks: seq<Task>, id: nat)
    requires Ready(tasks)
    ensures Booked(Rounds(NewWorker, tasks), id)
    decreases |tasks|
  {
    if tasks != [] {
      RoundsBook(tasks[..|tasks| - 1], id);
      RoundBooks(Rounds(NewWorker, tasks[..|tasks| - 1]), tasks[|tasks| - 1], id);
    }
  }

  /** In every run the next attempt at a task is told why the last was refused
      exactly while the task's last completion was refused. */
  lemma RefusalIsRemembered(tasks: seq<Task>, id: nat)
    requires Ready(tasks)
    ensures var w := Rounds(NewWorker, tasks);
            && (id in w.refusalMsg <==> Streak(w.log, id) > 0)
            && (id in w.refusalMsg ==> w.refusalMsg[id] != "")
  {
    RoundsKeep(tasks);
    RoundsBook(tasks, id);
    var w := Rounds(NewWorker, tasks);
    assert Refusals(w, id) == Streak(w.log, id);
  }
}
