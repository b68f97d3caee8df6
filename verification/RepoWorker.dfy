/** The remote worker (runQueueLoop over the repo mirror): what each operation
    does to the worker's own record of a mission, and the calls it makes. */
module RepoWorker {
  const PushMaxAttempts: nat := 3
  const RefusalCap: nat := 5

  /** The brain's answer to repo_snapshot; lays says the archive was laid down. */
  datatype SnapshotReply =
    | Snapshot(baseRev: string, lays: bool)
    | NotARepo
    | SnapshotError

  datatype PushReply = Accepted(baseRev: string) | PushError

  /** What the worker did that the outside world can see, in order. */
  datatype Event =
    | AskedSnapshot(mission: nat, reply: SnapshotReply)
    | Wrote(mission: nat, path: string)
    | SentPush(mission: nat, files: set<string>, missing: set<string>, base: string, answer: PushReply)
    | NothingLeft(mission: nat, missing: set<string>) // no tracked file could be read
    | GateComplete(task: nat, mission: nat, ok: bool)
    | ShadowComplete(task: nat, mission: nat)
    | Released(task: nat)
    | Reported(task: nat, mission: nat, kind: string)

  /** The worker's variables. A mission absent from a map has its zero value. */
  datatype Mirror = Mirror(
    writes: map<nat, set<string>>, base: map<nat, string>, isRepo: map<nat, bool>, known: map<nat, bool>)

  datatype Worker = Worker(mirror: Mirror, refusals: map<nat, nat>, refusalMsg: map<nat, string>, log: seq<Event>)

  const NewMirror := Mirror(map[], map[], map[], map[])
  const NewWorker := Worker(NewMirror, map[], map[], [])

  function Tracked(m: Mirror, mission: nat): set<string> {
    if mission in m.writes then m.writes[mission] else {}
  }

  function IsRepo(m: Mirror, mission: nat): bool {
    mission in m.isRepo && m.isRepo[mission]
  }

  function Known(m: Mirror, mission: nat): bool {
    mission in m.known && m.known[mission]
  }

  function Base(m: Mirror, mission: nat): string {
    if mission in m.base then m.base[mission] else ""
  }

  function Refusals(w: Worker, task: nat): nat {
    if task in w.refusals then w.refusals[task] else 0
  }

  function Say(w: Worker, e: Event): Worker {
    w.(log := w.log + [e])
  }

  // ---- The mirror's operations ----

  datatype EnsureResult = InMirror | NoMirror | EnsureFailed

  function EnsureState(w: Worker, mission: nat, reply: SnapshotReply): Worker {
    var m := w.mirror;
    if Known(m, mission) then w
    else
      var m1 := m.(known := m.known[mission := true]);
      var m2 :=
        match reply
        case NotARepo => m1.(isRepo := m1.isRepo[mission := false])
        case Snapshot(rev, true) =>
          m1.(base := m1.base[mission := rev], isRepo := m1.isRepo[mission := true], writes := m1.writes[mission := {}])
        case _ => m1;
      Say(w.(mirror := m2), AskedSnapshot(mission, reply))
  }

  function EnsureAnswer(w: Worker, mission: nat, reply: SnapshotReply): EnsureResult {
    if Known(w.mirror, mission) then
      if IsRepo(w.mirror, mission) then InMirror else NoMirror
    else match reply
      case NotARepo => NoMirror
      case Snapshot(_, lays) => if lays then InMirror else EnsureFailed
      case SnapshotError => EnsureFailed
  }

  function TrackState(w: Worker, mission: nat, path: string): Worker {
    var m := w.mirror;
    Say(w.(mirror := m.(writes := m.writes[mission := Tracked(m, mission) + {path}])), Wrote(mission, path))
  }

  /** One push attempt, given which files can be read now and what the brain
      would answer. */
  function PushState(w: Worker, mission: nat, readable: set<string>, reply: PushReply): Worker {
    var m, tracked := w.mirror, Tracked(w.mirror, mission);
    var files := tracked * readable;
    if tracked == {} then w
    else if files == {} then
      Say(w.(mirror := m.(writes := m.writes[mission := {}])), NothingLeft(mission, tracked))
    else
      var e := SentPush(mission, files, tracked - files, Base(m, mission), reply);
      match reply
      case PushError => Say(w, e)
      case Accepted(rev) =>
        Say(w.(mirror := m.(writes := m.writes[mission := {}],
                            base := if rev == "" then m.base else m.base[mission := rev])), e)
  }

  predicate PushOk(w: Worker, mission: nat, readable: set<string>, reply: PushReply) {
    Tracked(w.mirror, mission) * readable == {} || reply.Accepted?
  }

  // ---- One round of the loop ----

  datatype ToolStep = ToolStep(writes: bool, ok: bool, path: string)

  datatype Attempt = Attempt(readable: set<string>, reply: PushReply)

  /** A claimed task and how everything around it turns out. */
  datatype Task = Task(
    id: nat, mission: nat, role: string, snapshot: SnapshotReply, steps: seq<ToolStep>,
    unreachable: bool, attempts: seq<Attempt>, gateOk: bool, gateMessage: string)

  predicate IsShadow(role: string) {
    role == "mutant-generator-shadow" || role == "test-writer-shadow"
  }

  /** Roles answered by a single model call, with no tools and no mirror. */
  predicate IsFast(role: string) {
    role == "test-writer" || role == "mutant-generator" || role == "test-critic" || IsShadow(role)
  }

  function TrackSteps(w: Worker, mission: nat, steps: seq<ToolStep>): Worker {
    if steps == [] then w
    else
      var n := |steps| - 1;
      var w1 := TrackSteps(w, mission, steps[..n]);
      if steps[n].writes && steps[n].ok && steps[n].path != "" then TrackState(w1, mission, steps[n].path) else w1
  }

  function RunTask(w: Worker, t: Task): Worker {
    if IsFast(t.role) then w else TrackSteps(EnsureState(w, t.mission, t.snapshot), t.mission, t.steps)
  }

  function HandleUnreachable(w: Worker, t: Task): Worker {
    Say(Say(w, if IsShadow(t.role) then ShadowComplete(t.id, t.mission) else Released(t.id)),
      Reported(t.id, t.mission, "ops"))
  }

  /** Up to n attempts, the next one numbered PushMaxAttempts - n + 1. */
  function PushAttempts(w: Worker, mission: nat, attempts: seq<Attempt>): Worker
    decreases |attempts|
  {
    if attempts == [] then w
    else
      var a, w1 := attempts[0], PushState(w, mission, attempts[0].readable, attempts[0].reply);
      if PushOk(w, mission, a.readable, a.reply) then w1 else PushAttempts(w1, mission, attempts[1..])
  }

  predicate AnyPushOk(w: Worker, mission: nat, attempts: seq<Attempt>) {
    exists k :: 0 <= k < |attempts| && PushOk(w, mission, attempts[k].readable, attempts[k].reply)
  }

  function Gate(w: Worker, t: Task): Worker {
    var w1 := Say(w, GateComplete(t.id, t.mission, t.gateOk));
    if t.gateOk then
      w1.(refusals := w1.refusals - {t.id}, refusalMsg := w1.refusalMsg - {t.id})
    else
      var n := Refusals(w, t.id) + 1;
      var why := if t.gateMessage == "" then "not the claimer, or it was already done" else t.gateMessage;
      var w2 := w1.(refusals := w1.refusals[t.id := n], refusalMsg := w1.refusalMsg[t.id := why]);
      if n == RefusalCap then Say(w2, Reported(t.id, t.mission, "note")) else w2
  }

  function PushAndComplete(w: Worker, t: Task): Worker
    requires |t.attempts| == PushMaxAttempts
  {
    if !IsRepo(w.mirror, t.mission) then Gate(w, t)
    else
      var pushed := PushAttempts(w, t.mission, t.attempts);
      if AnyPushOk(w, t.mission, t.attempts) then Gate(pushed, t)
      else Say(pushed, Reported(t.id, t.mission, "regression"))
  }

  function Round(w: Worker, t: Task): Worker
    requires |t.attempts| == PushMaxAttempts
  {
    var ran := RunTask(w, t);
    if t.unreachable then HandleUnreachable(ran, t) else PushAndComplete(ran, t)
  }

  predicate Ready(tasks: seq<Task>) {
    forall k :: 0 <= k < |tasks| ==> |tasks[k].attempts| == PushMaxAttempts
  }

  function Rounds(w: Worker, tasks: seq<Task>): Worker
    requires Ready(tasks)
  {
    if tasks == [] then w else Round(Rounds(w, tasks[..|tasks| - 1]), tasks[|tasks| - 1])
  }

  // ---- The same, in place ----

  class QueueWorker {
    var writes: map<nat, set<string>>
    var base: map<nat, string>
    var isRepo: map<nat, bool>
    var known: map<nat, bool>
    var refusals: map<nat, nat>
    var refusalMsg: map<nat, string>
    var log: seq<Event>

    function View(): Worker
      reads this
    {
      Worker(Mirror(writes, base, isRepo, known), refusals, refusalMsg, log)
    }

    constructor ()
      ensures View() == NewWorker
    {
      writes, base, isRepo, known, refusals, refusalMsg, log := map[], map[], map[], map[], map[], map[], [];
    }

    method Ensure(mission: nat, reply: SnapshotReply) returns (answer: EnsureResult)
      modifies this
      ensures View() == EnsureState(old(View()), mission, reply)
      ensures answer == EnsureAnswer(old(View()), mission, reply)
    {
      if mission in known && known[mission] {
        answer := if mission in isRepo && isRepo[mission] then InMirror else NoMirror;
        return;
      }
      known := known[mission := true];
      log := log + [AskedSnapshot(mission, reply)];
      match reply {
        case NotARepo =>
          isRepo := isRepo[mission := false];
          answer := NoMirror;
        case SnapshotError => answer := EnsureFailed;
        case Snapshot(rev, lays) =>
          if !lays {
            return EnsureFailed;
          }
          base := base[mission := rev];
          isRepo := isRepo[mission := true];
          writes := writes[mission := {}];
          answer := InMirror;
      }
    }

    method Track(mission: nat, path: string)
      modifies this`writes, this`log
      ensures View() == TrackState(old(View()), mission, path)
    {
      if mission !in writes {
        writes := writes[mission := {}];
      }
      writes := writes[mission := writes[mission] + {path}];
      log := log + [Wrote(mission, path)];
    }

    method Push(mission: nat, readable: set<string>, reply: PushReply) returns (ok: bool)
      modifies this`writes, this`base, this`log
      ensures View() == PushState(old(View()), mission, readable, reply)
      ensures ok == PushOk(old(View()), mission, readable, reply)
    {
      var tracked := if mission in writes then writes[mission] else {};
      if tracked == {} {
        return true;
      }
      var files := tracked * readable;
      if files == {} {
        writes := writes[mission := {}];
        log := log + [NothingLeft(mission, tracked)];
        return true;
      }
      log := log + [SentPush(mission, files, tracked - files, if mission in base then base[mission] else "", reply)];
      match reply {
        case PushError => ok := false;
        case Accepted(rev) =>
          writes := writes[mission := {}];
          if rev != "" {
            base := base[mission := rev];
          }
          ok := true;
      }
    }

    /** The retry loop around Push: it stops at the first push that succeeds. */
    method PushWithRetries(mission: nat, attempts: seq<Attempt>) returns (ok: bool)
      requires |attempts| == PushMaxAttempts
      modifies this`writes, this`base, this`log
      ensures View() == PushAttempts(old(View()), mission, attempts)
      ensures ok == AnyPushOk(old(View()), mission, attempts)
    {
      var k := 0;
      ok := false;
      while k < |attempts|
        invariant 0 <= k <= |attempts|
        invariant PushAttempts(View(), mission, attempts[k..]) == PushAttempts(old(View()), mission, attempts)
        invariant Tracked(View().mirror, mission) == Tracked(old(View()).mirror, mission)
        invariant forall j :: 0 <= j < k ==> !PushOk(old(View()), mission, attempts[j].readable, attempts[j].reply)
      {
        var before := View();
        ok := Push(mission, attempts[k].readable, attempts[k].reply);
        assert attempts[k..][1..] == attempts[k + 1..];
        if ok {
          return;
        }
        k := k + 1;
      }
    }

    /** The tool loop: a write is tracked only when the tool says it succeeded. */
    method RunSteps(t: Task)
      modifies this
      ensures View() == RunTask(old(View()), t)
    {
      if IsFast(t.role) {
        return;
      }
      var _ := Ensure(t.mission, t.snapshot);
      ghost var ensured := View();
      for i := 0 to |t.steps|
        invariant View() == TrackSteps(ensured, t.mission, t.steps[..i])
      {
        assert t.steps[..i + 1][..i] == t.steps[..i];
        var step := t.steps[i];
        if step.writes && step.ok && step.path != "" {
          Track(t.mission, step.path);
        }
      }
      assert t.steps[..|t.steps|] == t.steps;
    }

    /** Asks the gate to complete the task and keeps the refusal books. */
    method CompleteAtGate(t: Task)
      modifies this`refusals, this`refusalMsg, this`log
      ensures View() == Gate(old(View()), t)
    {
      log := log + [GateComplete(t.id, t.mission, t.gateOk)];
      if t.gateOk {
        refusals := refusals - {t.id};
        refusalMsg := refusalMsg - {t.id};
      } else {
        refusals := refusals[t.id := (if t.id in refusals then refusals[t.id] else 0) + 1];
        var why := if t.gateMessage == "" then "not the claimer, or it was already done" else t.gateMessage;
        refusalMsg := refusalMsg[t.id := why];
        if refusals[t.id] == RefusalCap {
          log := log + [Reported(t.id, t.mission, "note")];
        }
      }
    }

    /** One pass of the queue loop over a claimed task. */
    method RunRound(t: Task)
      requires |t.attempts| == PushMaxAttempts
      modifies this
      ensures View() == Round(old(View()), t)
    {
      RunSteps(t);
      if t.unreachable {
        log := log + [if IsShadow(t.role) then ShadowComplete(t.id, t.mission) else Released(t.id)];
        log := log + [Reported(t.id, t.mission, "ops")];
        return;
      }
      if t.mission in isRepo && isRepo[t.mission] {
        var pushed := PushWithRetries(t.mission, t.attempts);
        if !pushed {
          log := log + [Reported(t.id, t.mission, "regression")];
          return;
        }
      }
      CompleteAtGate(t);
    }

    /** The loop, over any finite run of claimed tasks. */
    method RunQueueLoop(tasks: seq<Task>)
      requires Ready(tasks) && View() == NewWorker
      modifies this
      ensures View() == Rounds(NewWorker, tasks)
    {
      for i := 0 to |tasks|
        invariant View() == Rounds(NewWorker, tasks[..i])
      {
        assert tasks[..i + 1][..i] == tasks[..i];
        RunRound(tasks[i]);
      }
      assert tasks[..|tasks|] == tasks;
    }
  }
}
