/** What the log of any run of the remote worker shows: writes land before the
    gate is asked, pushes carry exactly what is owed, the snapshot is asked for
    once, and refusals are counted and reported truthfully.

    Everything here is read off the log alone; the worker's variables appear only
    in the invariant that ties them to the log. */
module RepoWorkerSafety {
  import opened RepoWorker

  // ---- Reading the log ----

  /** The log holds a call for the mission's snapshot. */
  predicate Asked(log: seq<Event>, m: nat) {
    exists k :: 0 <= k < |log| && log[k].AskedSnapshot? && log[k].mission == m
  }

  predicate LaidDown(e: Event, m: nat) {
    e.AskedSnapshot? && e.mission == m && e.reply.Snapshot? && e.reply.lays
  }

  /** The mission's snapshot was laid down: it is worked on in a mirror. */
  predicate Mirrored(log: seq<Event>, m: nat) {
    exists k :: 0 <= k < |log| && LaidDown(log[k], m)
  }

  /** The brain accepted the path with its push. */
  predicate Accepts(e: Event, m: nat, p: string) {
    e.SentPush? && e.mission == m && e.answer.Accepted? && p in e.files
  }

  /** A push that went through left the path out: its file could not be read. */
  predicate LeavesOut(e: Event, m: nat, p: string) {
    || (e.SentPush? && e.mission == m && e.answer.Accepted? && p in e.missing)
    || (e.NothingLeft? && e.mission == m && p in e.missing)
  }

  /** The event settles what became of a written path, for good or ill: the worker
      no longer tracks it. */
  predicate Settles(e: Event, m: nat, p: string) {
    Accepts(e, m, p) || LeavesOut(e, m, p)
  }

  /** The paths written for a mission and not settled since. */
  function Owed(log: seq<Event>, m: nat): set<string> {
    if log == [] then {}
    else
      var n, e := |log| - 1, log[|log| - 1];
      var before := Owed(log[..n], m);
      if e.Wrote? && e.mission == m then before + {e.path}
      else set p | p in before && !Settles(e, m, p)
  }

  /** The last base revision the brain gave for the mission. */
  function BaseOf(log: seq<Event>, m: nat): string {
    if log == [] then ""
    else
      var n, e := |log| - 1, log[|log| - 1];
      if LaidDown(e, m) then e.reply.baseRev
      else if e.SentPush? && e.mission == m && e.answer.Accepted? && e.answer.baseRev != "" then e.answer.baseRev
      else BaseOf(log[..n], m)
  }

  /** How many times in a row the gate has refused the task. */
  function Streak(log: seq<Event>, task: nat): nat {
    if log == [] then 0
    else
      var n, e := |log| - 1, log[|log| - 1];
      if e.GateComplete? && e.task == task then if e.ok then 0 else Streak(log[..n], task) + 1
      else Streak(log[..n], task)
  }

  predicate FailedPush(e: Event, m: nat) {
    e.SentPush? && e.mission == m && e.answer.PushError?
  }

  /** What must be true of the past whenever the worker does e. */
  predicate Allowed(past: seq<Event>, e: Event) {
    match e
    case AskedSnapshot(m, _) => !Asked(past, m)
    case Wrote(m, _) => Asked(past, m)
    case SentPush(m, files, missing, base, _) =>
      Mirrored(past, m) && files != {} && files !! missing && files + missing == Owed(past, m) &&
        base == BaseOf(past, m)
    case NothingLeft(m, missing) => Mirrored(past, m) && missing != {} && missing == Owed(past, m)
    case GateComplete(_, m, _) => Mirrored(past, m) ==> Owed(past, m) == {}
    case Reported(t, m, kind) =>
      && (kind == "note" ==>
            past != [] && past[|past| - 1] == GateComplete(t, m, false) && Streak(past, t) == RefusalCap)
      && (kind == "regression" ==>
            |past| >= PushMaxAttempts &&
            forall k :: |past| - PushMaxAttempts <= k < |past| ==> FailedPush(past[k], m))
    case _ => true
  }

  predicate Sound(log: seq<Event>) {
    forall j :: 0 <= j < |log| ==> Allowed(log[..j], log[j])
  }

  /** Every refusal that makes the streak reach the cap is reported at once. */
  predicate StallsReported(log: seq<Event>) {
    forall j ::
      0 <= j < |log| && log[j].GateComplete? && !log[j].ok && Streak(log[..j + 1], log[j].task) == RefusalCap ==>
      j + 1 < |log| && log[j + 1] == Reported(log[j].task, log[j].mission, "note")
  }

  // ---- The invariant ----

  predicate MirrorAgrees(mirror: Mirror, log: seq<Event>, m: nat) {
    && Tracked(mirror, m) == Owed(log, m)
    && (Known(mirror, m) <==> Asked(log, m))
    && (IsRepo(mirror, m) <==> Mirrored(log, m))
    && Base(mirror, m) == BaseOf(log, m)
  }

  ghost predicate Agrees(w: Worker) {
    && (forall m :: MirrorAgrees(w.mirror, w.log, m))
    && (forall t :: Refusals(w, t) == Streak(w.log, t))
  }

  ghost predicate Inv(w: Worker) {
    Agrees(w) && Sound(w.log) && StallsReported(w.log)
  }

  // ---- One more event ----

  /** The past of a log with one event added is the log. */
  lemma ReadOneMore(log: seq<Event>, e: Event, m: nat)
    ensures Asked(log + [e], m) <==> Asked(log, m) || (e.AskedSnapshot? && e.mission == m)
    ensures Mirrored(log + [e], m) <==> Mirrored(log, m) || LaidDown(e, m)
  {
    var more := log + [e];
    assert more[|log|] == e;
    assert forall k :: 0 <= k < |log| ==> more[k] == log[k];
  }

  lemma FoldOneMore(log: seq<Event>, e: Event, m: nat)
    ensures Owed(log + [e], m) ==
            if e.Wrote? && e.mission == m then Owed(log, m) + {e.path}
            else set p | p in Owed(log, m) && !Settles(e, m, p)
    ensures BaseOf(log + [e], m) ==
            if LaidDown(e, m) then e.reply.baseRev
            else if e.SentPush? && e.mission == m && e.answer.Accepted? && e.answer.baseRev != "" then e.answer.baseRev
            else BaseOf(log, m)
  {
    assert (log + [e])[..|log|] == log;
  }

  lemma CountOneMore(log: seq<Event>, e: Event, t: nat)
    ensures Streak(log + [e], t) ==
            if e.GateComplete? && e.task == t then if e.ok then 0 else Streak(log, t) + 1
            else Streak(log, t)
  {
    assert (log + [e])[..|log|] == log;
  }

  lemma SoundOneMore(log: seq<Event>, e: Event)
    requires Sound(log) && Allowed(log, e)
    ensures Sound(log + [e])
  {
    var more := log + [e];
    forall j | 0 <= j < |more|
      ensures Allowed(more[..j], more[j])
    {
      if j < |log| {
        assert more[..j] == log[..j];
        assert more[j] == log[j];
      } else {
        assert more[..j] == log;
      }
    }
  }

  /** The event does not itself bring a streak to the cap. */
  predicate NoStall(log: seq<Event>, e: Event) {
    !(e.GateComplete? && !e.ok && Streak(log, e.task) + 1 == RefusalCap)
  }

  lemma StallsOneMore(log: seq<Event>, e: Event)
    requires StallsReported(log) && NoStall(log, e)
    ensures StallsReported(log + [e])
  {
    var more := log + [e];
    forall j | 0 <= j < |more| && more[j].GateComplete? && !more[j].ok &&
      Streak(more[..j + 1], more[j].task) == RefusalCap
      ensures j + 1 < |more| && more[j + 1] == Reported(more[j].task, more[j].mission, "note")
    {
      if j == |log| {
        assert more[..j + 1] == more;
        CountOneMore(log, e, e.task);
      } else {
        assert more[..j + 1] == log[..j + 1] && more[j] == log[j];
        assert more[j + 1] == log[j + 1];
      }
    }
  }

  // ---- Each operation keeps the invariant ----

  /** Written at i and not settled by anything after. */
  predicate OpenSince(log: seq<Event>, m: nat, p: string, i: int) {
    0 <= i < |log| && log[i] == Wrote(m, p) && forall k :: i < k < |log| ==> !Settles(log[k], m, p)
  }

  /** Owed, computed as a fold, holds exactly the writes still open. */
  lemma {:induction false} OwedIsOpen(log: seq<Event>, m: nat, p: string)
    ensures p in Owed(log, m) <==> exists i :: OpenSince(log, m, p, i)
    decreases |log|
  {
    if log != [] {
      var n := |log| - 1;
      var past := log[..n];
      OwedIsOpen(past, m, p);
      assert forall i :: OpenSince(past, m, p, i) && !Settles(log[n], m, p) ==> OpenSince(log, m, p, i);
      assert forall i :: i != n && OpenSince(log, m, p, i) ==> OpenSince(past, m, p, i);
      if log[n] == Wrote(m, p) {
        assert OpenSince(log, m, p, n);
      }
    }
  }

  lemma UnaskedOwesNothing(log: seq<Event>, m: nat)
    requires Sound(log)
    ensures !Asked(log, m) ==> Owed(log, m) == {}
  {
    forall p | p in Owed(log, m)
      ensures Asked(log, m)
    {
      OwedIsOpen(log, m, p);
      var i :| OpenSince(log, m, p, i);
      assert Allowed(log[..i], log[i]);
      var k :| 0 <= k < i && log[..i][k].AskedSnapshot? && log[..i][k].mission == m;
      assert log[k] == log[..i][k];
    }
  }

  lemma InvOneMore(w: Worker, w': Worker, e: Event)
    requires Inv(w) && w'.log == w.log + [e]
    requires Allowed(w.log, e) && NoStall(w.log, e)
    requires forall m :: MirrorAgrees(w'.mirror, w'.log, m)
    requires forall t :: Refusals(w', t) == Streak(w'.log, t)
    ensures Inv(w')
  {
    SoundOneMore(w.log, e);
    StallsOneMore(w.log, e);
  }

  /** An event that the mirror and the refusal books do not hear about. */
  predicate Silent(e: Event) {
    !e.AskedSnapshot? && !e.Wrote? && !e.SentPush? && !e.NothingLeft? && !e.GateComplete?
  }

  lemma SayKeeps(w: Worker, e: Event)
    requires Inv(w) && Silent(e) && Allowed(w.log, e)
    ensures Inv(Say(w, e))
  {
    var w' := Say(w, e);
    forall m
      ensures MirrorAgrees(w'.mirror, w'.log, m)
    {
      assert MirrorAgrees(w.mirror, w.log, m);
      ReadOneMore(w.log, e, m);
      FoldOneMore(w.log, e, m);
    }
    forall t
      ensures Refusals(w', t) == Streak(w'.log, t)
    {
      CountOneMore(w.log, e, t);
    }
    InvOneMore(w, w', e);
  }

  lemma LaidMeansAsked(log: seq<Event>, m: nat)
    ensures Mirrored(log, m) ==> Asked(log, m)
  {
    if Mirrored(log, m) {
      var k :| 0 <= k < |log| && LaidDown(log[k], m);
      assert log[k].AskedSnapshot? && log[k].mission == m;
    }
  }

  /** A snapshot call changes what the log says of its own mission only. */
  lemma AskedElsewhere(log: seq<Event>, mission: nat, reply: SnapshotReply, m: nat)
    ensures Owed(log + [AskedSnapshot(mission, reply)], m) == Owed(log, m)
    ensures m != mission ==> BaseOf(log + [AskedSnapshot(mission, reply)], m) == BaseOf(log, m)
  {
    var e := AskedSnapshot(mission, reply);
    FoldOneMore(log, e, m);
    assert (set p | p in Owed(log, m) && !Settles(e, m, p)) == Owed(log, m);
  }

  lemma OtherMissionsAgree(w: Worker, mission: nat, reply: SnapshotReply, m: nat)
    requires !Known(w.mirror, mission) && m != mission && MirrorAgrees(w.mirror, w.log, m)
    ensures MirrorAgrees(EnsureState(w, mission, reply).mirror, w.log + [AskedSnapshot(mission, reply)], m)
  {
    ReadOneMore(w.log, AskedSnapshot(mission, reply), m);
    AskedElsewhere(w.log, mission, reply, m);
  }

  lemma OwnMissionAgrees(w: Worker, mission: nat, reply: SnapshotReply)
    requires !Known(w.mirror, mission) && Owed(w.log, mission) == {} && !Mirrored(w.log, mission)
    requires MirrorAgrees(w.mirror, w.log, mission)
    ensures MirrorAgrees(EnsureState(w, mission, reply).mirror, w.log + [AskedSnapshot(mission, reply)], mission)
  {
    var e := AskedSnapshot(mission, reply);
    ReadOneMore(w.log, e, mission);
    AskedElsewhere(w.log, mission, reply, mission);
    FoldOneMore(w.log, e, mission);
  }

  lemma EnsureKeeps(w: Worker, mission: nat, reply: SnapshotReply)
    requires Inv(w)
    ensures Inv(EnsureState(w, mission, reply))
    ensures Known(EnsureState(w, mission, reply).mirror, mission)
  {
    if !Known(w.mirror, mission) {
      var w', e := EnsureState(w, mission, reply), AskedSnapshot(mission, reply);
      assert MirrorAgrees(w.mirror, w.log, mission);
      UnaskedOwesNothing(w.log, mission);
      LaidMeansAsked(w.log, mission);
      forall m
        ensures MirrorAgrees(w'.mirror, w'.log, m)
      {
        assert MirrorAgrees(w.mirror, w.log, m);
        if m == mission {
          OwnMissionAgrees(w, mission, reply);
        } else {
          OtherMissionsAgree(w, mission, reply, m);
        }
      }
      forall t
        ensures Refusals(w', t) == Streak(w'.log, t)
      {
        CountOneMore(w.log, e, t);
      }
      InvOneMore(w, w', e);
    }
  }

  lemma TrackKeeps(w: Worker, mission: nat, path: string)
    requires Inv(w) && Known(w.mirror, mission)
    ensures Inv(TrackState(w, mission, path))
  {
    var w', e := TrackState(w, mission, path), Wrote(mission, path);
    assert MirrorAgrees(w.mirror, w.log, mission);
    forall m
      ensures MirrorAgrees(w'.mirror, w'.log, m)
    {
      assert MirrorAgrees(w.mirror, w.log, m);
      ReadOneMore(w.log, e, m);
      FoldOneMore(w.log, e, m);
    }
    forall t
      ensures Refusals(w', t) == Streak(w'.log, t)
    {
      CountOneMore(w.log, e, t);
    }
    InvOneMore(w, w', e);
  }

  lemma {:induction false} StepsKeep(w: Worker, mission: nat, steps: seq<ToolStep>)
    requires Inv(w) && Known(w.mirror, mission)
    ensures Inv(TrackSteps(w, mission, steps)) && Known(TrackSteps(w, mission, steps).mirror, mission)
    decreases |steps|
  {
    if steps != [] {
      var n := |steps| - 1;
      StepsKeep(w, mission, steps[..n]);
      if steps[n].writes && steps[n].ok && steps[n].path != "" {
        TrackKeeps(TrackSteps(w, mission, steps[..n]), mission, steps[n].path);
      }
    }
  }

  lemma PushAgrees(w: Worker, mission: nat, readable: set<string>, reply: PushReply, e: Event, m: nat)
    requires Tracked(w.mirror, mission) != {}
    requires MirrorAgrees(w.mirror, w.log, mission) && MirrorAgrees(w.mirror, w.log, m)
    requires PushState(w, mission, readable, reply).log == w.log + [e]
    ensures MirrorAgrees(PushState(w, mission, readable, reply).mirror, w.log + [e], m)
  {
    assert e == (w.log + [e])[|w.log|];
    ReadOneMore(w.log, e, m);
    FoldOneMore(w.log, e, m);
    if m != mission {
      assert (set p | p in Owed(w.log, m) && !Settles(e, m, p)) == Owed(w.log, m);
    }
  }

  /** A push attempt keeps the invariant; when it succeeds nothing is owed, and
      when it fails the mirror is as it was and one failed push was logged. */
  lemma PushKeeps(w: Worker, mission: nat, readable: set<string>, reply: PushReply)
    requires Inv(w) && IsRepo(w.mirror, mission)
    ensures var w' := PushState(w, mission, readable, reply);
            && Inv(w')
            && (PushOk(w, mission, readable, reply) ==> Tracked(w'.mirror, mission) == {})
            && (!PushOk(w, mission, readable, reply) ==>
                  w'.mirror == w.mirror && |w'.log| == |w.log| + 1 && w.log <= w'.log &&
                  FailedPush(w'.log[|w.log|], mission))
            && IsRepo(w'.mirror, mission)
  {
    var tracked := Tracked(w.mirror, mission);
    var files := tracked * readable;
    assert MirrorAgrees(w.mirror, w.log, mission);
    if tracked != {} {
      var w' := PushState(w, mission, readable, reply);
      var e := if files == {} then NothingLeft(mission, tracked)
               else SentPush(mission, files, tracked - files, Base(w.mirror, mission), reply);
      assert files + (tracked - files) == tracked;
      forall m
        ensures MirrorAgrees(w'.mirror, w'.log, m)
      {
        assert MirrorAgrees(w.mirror, w.log, m);
        PushAgrees(w, mission, readable, reply, e, m);
      }
      forall t
        ensures Refusals(w', t) == Streak(w'.log, t)
      {
        CountOneMore(w.log, e, t);
      }
      InvOneMore(w, w', e);
    }
  }

  lemma {:induction false} AttemptsKeep(w: Worker, mission: nat, attempts: seq<Attempt>)
    requires Inv(w) && IsRepo(w.mirror, mission)
    ensures var w' := PushAttempts(w, mission, attempts);
            && Inv(w') && IsRepo(w'.mirror, mission)
            && (AnyPushOk(w, mission, attempts) ==> Tracked(w'.mirror, mission) == {})
            && (!AnyPushOk(w, mission, attempts) ==>
                  w'.mirror == w.mirror && |w'.log| == |w.log| + |attempts| && w.log <= w'.log &&
                  forall k :: |w.log| <= k < |w'.log| ==> FailedPush(w'.log[k], mission))
    decreases |attempts|
  {
    if attempts != [] {
      var a := attempts[0];
      PushKeeps(w, mission, a.readable, a.reply);
      if !PushOk(w, mission, a.readable, a.reply) {
        var w1 := PushState(w, mission, a.readable, a.reply);
        AttemptsKeep(w1, mission, attempts[1..]);
        assert forall k :: 0 <= k < |attempts[1..]| ==> attempts[1..][k] == attempts[k + 1];
        assert AnyPushOk(w1, mission, attempts[1..]) <==> AnyPushOk(w, mission, attempts) by {
          if AnyPushOk(w, mission, attempts) {
            var k :| 0 <= k < |attempts| && PushOk(w, mission, attempts[k].readable, attempts[k].reply);
            assert attempts[1..][k - 1] == attempts[k];
          }
        }
      }
    }
  }

  /** Asking the gate keeps the invariant when a mirrored mission owes nothing. */
  lemma GateKeeps(w: Worker, t: Task)
    requires Inv(w) && (IsRepo(w.mirror, t.mission) ==> Tracked(w.mirror, t.mission) == {})
    ensures Inv(Gate(w, t)) && Gate(w, t).mirror == w.mirror
  {
    var e := GateComplete(t.id, t.mission, t.gateOk);
    var asked := Gate(w, t).(log := w.log + [e]);
    assert MirrorAgrees(w.mirror, w.log, t.mission);
    SoundOneMore(w.log, e);
    forall m
      ensures MirrorAgrees(asked.mirror, asked.log, m)
    {
      assert MirrorAgrees(w.mirror, w.log, m);
      ReadOneMore(w.log, e, m);
      FoldOneMore(w.log, e, m);
      assert (set p | p in Owed(w.log, m) && !Settles(e, m, p)) == Owed(w.log, m);
    }
    forall u
      ensures Refusals(asked, u) == Streak(asked.log, u)
    {
      assert Refusals(w, u) == Streak(w.log, u);
      CountOneMore(w.log, e, u);
    }
    if NoStall(w.log, e) {
      StallsOneMore(w.log, e);
    } else {
      StallIsNoted(w, t, asked);
    }
  }

  lemma StallIsNoted(w: Worker, t: Task, asked: Worker)
    requires Inv(w) && Agrees(asked) && Sound(asked.log)
    requires !t.gateOk && Refusals(w, t.id) + 1 == RefusalCap
    requires asked == Gate(w, t).(log := w.log + [GateComplete(t.id, t.mission, false)])
    ensures Inv(Gate(w, t))
  {
    var note, w' := Reported(t.id, t.mission, "note"), Gate(w, t);
    assert w' == Say(asked, note);
    assert Refusals(asked, t.id) == Streak(asked.log, t.id);
    SoundOneMore(asked.log, note);
    forall m
      ensures MirrorAgrees(w'.mirror, w'.log, m)
    {
      assert MirrorAgrees(asked.mirror, asked.log, m);
      ReadOneMore(asked.log, note, m);
      FoldOneMore(asked.log, note, m);
      assert (set p | p in Owed(asked.log, m) && !Settles(note, m, p)) == Owed(asked.log, m);
    }
    forall u
      ensures Refusals(w', u) == Streak(w'.log, u)
    {
      assert Refusals(asked, u) == Streak(asked.log, u);
      CountOneMore(asked.log, note, u);
    }
    StallPair(w.log, GateComplete(t.id, t.mission, false), note);
  }

  lemma StallPair(log: seq<Event>, e: Event, note: Event)
    requires StallsReported(log) && e.GateComplete? && note == Reported(e.task, e.mission, "note")
    ensures StallsReported(log + [e] + [note])
  {
    var more := log + [e] + [note];
    forall j | 0 <= j < |more| && more[j].GateComplete? && !more[j].ok &&
      Streak(more[..j + 1], more[j].task) == RefusalCap
      ensures j + 1 < |more| && more[j + 1] == Reported(more[j].task, more[j].mission, "note")
    {
      if j < |log| {
        assert more[..j + 1] == log[..j + 1] && more[j] == log[j];
        assert more[j + 1] == log[j + 1];
      }
    }
  }

  lemma RoundKeeps(w: Worker, t: Task)
    requires Inv(w) && |t.attempts| == PushMaxAttempts
    ensures Inv(Round(w, t))
  {
    var ran := RunTask(w, t);
    if !IsFast(t.role) {
      EnsureKeeps(w, t.mission, t.snapshot);
      StepsKeep(EnsureState(w, t.mission, t.snapshot), t.mission, t.steps);
    }
    if t.unreachable {
      var e := if IsShadow(t.role) then ShadowComplete(t.id, t.mission) else Released(t.id);
      SayKeeps(ran, e);
      SayKeeps(Say(ran, e), Reported(t.id, t.mission, "ops"));
    } else if IsRepo(ran.mirror, t.mission) {
      AttemptsKeep(ran, t.mission, t.attempts);
      var pushed := PushAttempts(ran, t.mission, t.attempts);
      if AnyPushOk(ran, t.mission, t.attempts) {
        GateKeeps(pushed, t);
      } else {
        SayKeeps(pushed, Reported(t.id, t.mission, "regression"));
      }
    } else {
      GateKeeps(ran, t);
    }
  }

  /** Every run of the loop keeps the invariant. */
  lemma {:induction false} RoundsKeep(tasks: seq<Task>)
    requires Ready(tasks)
    ensures Inv(Rounds(NewWorker, tasks))
    decreases |tasks|
  {
    if tasks != [] {
      RoundsKeep(tasks[..|tasks| - 1]);
      RoundKeeps(Rounds(NewWorker, tasks[..|tasks| - 1]), tasks[|tasks| - 1]);
    }
  }
}
