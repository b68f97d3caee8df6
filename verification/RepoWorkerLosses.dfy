/** A push lost for good is reported: exactly when every attempt of a round has
    failed, in every run of the remote worker. */
module RepoWorkerLosses {
  import opened RepoWorker
  import opened RepoWorkerSafety
  import opened RepoWorkerRuns

  predicate Fails(e: Event) {
    e.SentPush? && e.answer.PushError?
  }

  /** How many pushes have failed in a row at the end of the log. */
  function Failing(log: seq<Event>): nat {
    if log == [] || !Fails(log[|log| - 1]) then 0 else Failing(log[..|log| - 1]) + 1
  }

  /** The finding about a push lost to the mission. */
  predicate LossOf(e: Event, m: nat) {
    e.Reported? && e.mission == m && e.kind == "regression"
  }

  /** What comes after the last allowed attempt has failed is the finding. */
  predicate Answers(past: seq<Event>, e: Event) {
    Failing(past) >= PushMaxAttempts ==> LossOf(e, past[|past| - 1].mission)
  }

  predicate LossesReported(log: seq<Event>) {
    forall j :: 0 <= j < |log| ==> Answers(log[..j], log[j])
  }

  /** Nothing is failing and every loss so far was reported. */
  predicate AtRest(log: seq<Event>) {
    LossesReported(log) && Failing(log) == 0
  }

  lemma OneMoreAnswer(log: seq<Event>, e: Event)
    requires LossesReported(log) && Answers(log, e)
    ensures LossesReported(log + [e])
    ensures Failing(log + [e]) == if Fails(e) then Failing(log) + 1 else 0
  {
    var more := log + [e];
    assert more[..|log|] == log;
    forall j | 0 <= j < |more|
      ensures Answers(more[..j], more[j])
    {
      if j < |log| {
        assert more[..j] == log[..j] && more[j] == log[j];
      }
    }
  }

  lemma {:induction false} StepsComeToRest(w: Worker, mission: nat, steps: seq<ToolStep>)
    requires AtRest(w.log)
    ensures AtRest(TrackSteps(w, mission, steps).log)
    decreases |steps|
  {
    if steps != [] {
      var n := |steps| - 1;
      StepsComeToRest(w, mission, steps[..n]);
      OneMoreAnswer(TrackSteps(w, mission, steps[..n]).log, Wrote(mission, steps[n].path));
    }
  }

  lemma RunComesToRest(w: Worker, t: Task)
    requires AtRest(w.log)
    ensures AtRest(RunTask(w, t).log)
  {
    if !IsFast(t.role) {
      OneMoreAnswer(w.log, AskedSnapshot(t.mission, t.snapshot));
      StepsComeToRest(EnsureState(w, t.mission, t.snapshot), t.mission, t.steps);
    }
  }

  /** One attempt: a failed one leaves the mirror alone and one more failing push,
      any other leaves none, if none was failing or something was tracked. */
  lemma AttemptCounts(w: Worker, mission: nat, readable: set<string>, reply: PushReply)
    requires LossesReported(w.log) && Failing(w.log) < PushMaxAttempts
    requires Failing(w.log) > 0 ==> Tracked(w.mirror, mission) != {}
    ensures var w', ok := PushState(w, mission, readable, reply), PushOk(w, mission, readable, reply);
            && LossesReported(w'.log)
            && Failing(w'.log) == (if ok then 0 else Failing(w.log) + 1)
            && (!ok ==> w'.mirror == w.mirror && Tracked(w.mirror, mission) != {} &&
                        w'.log != [] && FailedPush(w'.log[|w'.log| - 1], mission))
  {
    var tracked := Tracked(w.mirror, mission);
    var files := tracked * readable;
    if tracked != {} {
      OneMoreAnswer(w.log,
        if files == {} then NothingLeft(mission, tracked)
        else SentPush(mission, files, tracked - files, Base(w.mirror, mission), reply));
    }
  }

  lemma {:induction false} AttemptsCount(w: Worker, mission: nat, attempts: seq<Attempt>)
    requires LossesReported(w.log) && Failing(w.log) + |attempts| <= PushMaxAttempts
    requires Failing(w.log) > 0 ==>
               Tracked(w.mirror, mission) != {} && FailedPush(w.log[|w.log| - 1], mission)
    ensures var w', ok := PushAttempts(w, mission, attempts), AnyPushOk(w, mission, attempts);
            && LossesReported(w'.log)
            && (ok ==> Failing(w'.log) == 0)
            && (!ok ==> Failing(w'.log) == Failing(w.log) + |attempts|)
            && (Failing(w'.log) > 0 ==> FailedPush(w'.log[|w'.log| - 1], mission))
    decreases |attempts|
  {
    if attempts != [] {
      var a, rest := attempts[0], attempts[1..];
      AttemptCounts(w, mission, a.readable, a.reply);
      if !PushOk(w, mission, a.readable, a.reply) {
        var w1 := PushState(w, mission, a.readable, a.reply);
        AttemptsCount(w1, mission, rest);
        OthersDecide(w, w1, mission, attempts);
      }
    }
  }

  /** After a failed first attempt the others decide. */
  lemma OthersDecide(w: Worker, w1: Worker, mission: nat, attempts: seq<Attempt>)
    requires attempts != [] && w1.mirror == w.mirror
    requires !PushOk(w, mission, attempts[0].readable, attempts[0].reply)
    ensures AnyPushOk(w, mission, attempts) <==> AnyPushOk(w1, mission, attempts[1..])
  {
    var rest := attempts[1..];
    assert forall k :: 0 <= k < |rest| ==> rest[k] == attempts[k + 1];
    if AnyPushOk(w, mission, attempts) {
      var k :| 0 <= k < |attempts| && PushOk(w, mission, attempts[k].readable, attempts[k].reply);
      assert rest[k - 1] == attempts[k];
    }
  }

  lemma GateComesToRest(w: Worker, t: Task)
    requires AtRest(w.log)
    ensures AtRest(Gate(w, t).log)
  {
    var e := GateComplete(t.id, t.mission, t.gateOk);
    OneMoreAnswer(w.log, e);
    OneMoreAnswer(w.log + [e], Reported(t.id, t.mission, "note"));
  }

  lemma RoundComesToRest(w: Worker, t: Task)
    requires AtRest(w.log) && |t.attempts| == PushMaxAttempts
    ensures AtRest(Round(w, t).log)
  {
    RunComesToRest(w, t);
    var ran := RunTask(w, t);
    if t.unreachable {
      var e := if IsShadow(t.role) then ShadowComplete(t.id, t.mission) else Released(t.id);
      OneMoreAnswer(ran.log, e);
      OneMoreAnswer(ran.log + [e], Reported(t.id, t.mission, "ops"));
    } else if IsRepo(ran.mirror, t.mission) {
      AttemptsCount(ran, t.mission, t.attempts);
      var pushed := PushAttempts(ran, t.mission, t.attempts);
      if AnyPushOk(ran, t.mission, t.attempts) {
        GateComesToRest(pushed, t);
      } else {
        OneMoreAnswer(pushed.log, Reported(t.id, t.mission, "regression"));
      }
    } else {
      GateComesToRest(ran, t);
    }
  }

  lemma {:induction false} RoundsComeToRest(tasks: seq<Task>)
    requires Ready(tasks)
    ensures AtRest(RunLog(tasks))
    decreases |tasks|
  {
    if tasks != [] {
      RoundsComeToRest(tasks[..|tasks| - 1]);
      RoundComesToRest(Rounds(NewWorker, tasks[..|tasks| - 1]), tasks[|tasks| - 1]);
    }
  }

  /** The last n events are failed pushes of the mission. */
  predicate FailedLast(log: seq<Event>, n: nat, m: nat) {
    n <= |log| && forall k :: |log| - n <= k < |log| ==> FailedPush(log[k], m)
  }

  lemma {:induction false} FailedLastCounts(log: seq<Event>, n: nat, m: nat)
    requires FailedLast(log, n, m)
    ensures Failing(log) >= n
    decreases n
  {
    if n > 0 {
      FailedLastCounts(log[..|log| - 1], n - 1, m);
    }
  }

  /** After any event of a run: the last three are failed pushes of one mission
      exactly when the next one is the finding that its push was lost. */
  lemma LossIsReportedAtTheLastAttempt(tasks: seq<Task>, j: nat, m: nat)
    requires Ready(tasks) && j <= |RunLog(tasks)|
    ensures var log := RunLog(tasks);
            FailedLast(log[..j], 3, m) <==> (j < |log| && LossOf(log[j], m))
  {
    var log := RunLog(tasks);
    RoundsComeToRest(tasks);
    assert log[..|log|] == log;
    if FailedLast(log[..j], PushMaxAttempts, m) {
      FailedLastCounts(log[..j], PushMaxAttempts, m);
      assert j < |log| ==> Answers(log[..j], log[j]);
    }
    if j < |log| && LossOf(log[j], m) {
      RegressionFollowsThreeFailures(tasks, j);
    }
  }
}
