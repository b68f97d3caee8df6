/** One drain of the ready tasks by a bounded pool of workers (runReadyTasks),
    as a state machine: every step belongs to one worker, and any worker may
    take the next step. The queue's contract is the atomic claim; every foreign
    call is a step that may go either way. */
module WorkerPool {
  import opened Common
  import opened SeatPolicy

  /** Where one worker stands in its loop. */
  datatype Phase =
    | AtTop                                              // about to look at the context
    | Claiming                                           // the context was live; about to claim
    | Claimed(task: nat)                                 // about to set ranAny
    | Calling(task: nat)                                 // about to run the role
    | Filing(task: nat, result: string, todo: seq<Finding>)
    | Failing(failure: Failure)                          // about to take the lock in fail
    | Cancelling                                         // error recorded; about to cancel
    | Exited

  function Holding(p: Phase): Option<nat> {
    match p
    case Claimed(t) => Some(t)
    case Calling(t) => Some(t)
    case Filing(t, _, _) => Some(t)
    case _ => None
  }

  /** What the drain is given: the tasks ready when it begins, and the roles
      some model backend serves. */
  datatype Job = Job(mission: nat, roles: map<nat, string>, backends: set<string>)

  /** The queue, with the history the properties speak of: who claimed a task,
      how its model call ended, and which tasks were held by a failing worker. */
  datatype Queue = Queue(
    ready: set<nat>, filed: seq<Finding>, done: map<nat, string>,
    owner: map<nat, nat>, answers: map<nat, Call>, lost: set<nat>)

  /** The variables the workers share, with the history of claims made after
      the cancel. */
  datatype Shared = Shared(
    ranAny: bool, firstErr: Option<Failure>, cancelled: bool, outerDone: bool,
    late: seq<nat>, canceller: Option<nat>)

  datatype Pool = Pool(job: Job, queue: Queue, shared: Shared, workers: seq<Phase>)

  datatype Act =
    | CheckContext
    | ClaimError
    | ClaimNothing
    | ClaimTask(task: nat)
    | MarkRan
    | FindNoBackend
    | CallRole(call: Call)
    | FileOne
    | FileError
    | Finish
    | FinishError
    | RecordError
    | Cancel

  datatype Move = OuterCancel | Do(worker: nat, act: Act)

  function Start(job: Job, swarm: int, outerDone: bool): Pool {
    Pool(job, Queue(job.roles.Keys, [], map[], map[], map[], {}), Shared(false, None, false, outerDone, [], None),
         seq(if swarm < 1 then 1 else swarm, _ => AtTop))
  }

  predicate Enabled(s: Pool, w: nat, act: Act) {
    w < |s.workers| &&
    var p := s.workers[w];
    match act
    case CheckContext => p.AtTop?
    case ClaimError => p.Claiming?
    case ClaimNothing => p.Claiming? && s.queue.ready == {}
    case ClaimTask(t) => p.Claiming? && t in s.queue.ready
    case MarkRan => p.Claimed?
    case FindNoBackend => p.Calling? && p.task in s.job.roles && s.job.roles[p.task] !in s.job.backends
    case CallRole(_) => p.Calling? && p.task in s.job.roles && s.job.roles[p.task] in s.job.backends
    case FileOne => p.Filing? && p.task in s.job.roles && p.todo != [] && Acceptable(Stamped(s.job, p))
    case FileError => p.Filing? && p.task in s.job.roles && p.todo != []
    case Finish => p.Filing? && p.todo == []
    case FinishError => p.Filing? && p.task in s.job.roles && p.todo == []
    case RecordError => p.Failing?
    case Cancel => p.Cancelling?
  }

  function Stamped(job: Job, p: Phase): Finding
    requires p.Filing? && p.task in job.roles && p.todo != []
  {
    Stamp(p.todo[0], job.mission, p.task, job.roles[p.task])
  }

  /** The worker's next phase. */
  function NextPhase(s: Pool, w: nat, act: Act): Phase
    requires Enabled(s, w, act)
  {
    var p := s.workers[w];
    match act
    case CheckContext => if s.shared.cancelled || s.shared.outerDone then Exited else Claiming
    case ClaimError => Failing(ClaimFailed)
    case ClaimNothing => Exited
    case ClaimTask(t) => Claimed(t)
    case MarkRan => Calling(p.task)
    case FindNoBackend => Failing(NoBackend(s.job.roles[p.task]))
    case CallRole(call) =>
      (match PlanFor(s.job.roles[p.task], call)
       case Complete(result, findings) => Filing(p.task, result, findings)
       case Abort(failure) => Failing(failure))
    case FileOne => p.(todo := p.todo[1..])
    case FileError => Failing(FindingRejected(s.job.roles[p.task]))
    case Finish => AtTop
    case FinishError => Failing(CompletionFailed(s.job.roles[p.task]))
    case RecordError => Cancelling
    case Cancel => Exited
  }

  function NextQueue(s: Pool, w: nat, act: Act): Queue
    requires Enabled(s, w, act)
  {
    var p, q := s.workers[w], s.queue;
    match act
    case ClaimTask(t) => q.(ready := q.ready - {t}, owner := q.owner[t := w])
    case CallRole(call) =>
      q.(answers := q.answers[p.task := call],
         lost := if PlanFor(s.job.roles[p.task], call).Abort? then q.lost + {p.task} else q.lost)
    case FileOne => q.(filed := q.filed + [Stamped(s.job, p)])
    case Finish => q.(done := q.done[p.task := p.result])
    case FindNoBackend => q.(lost := q.lost + {p.task})
    case FileError => q.(lost := q.lost + {p.task})
    case FinishError => q.(lost := q.lost + {p.task})
    case _ => q
  }

  function NextShared(s: Pool, w: nat, act: Act): Shared
    requires Enabled(s, w, act)
  {
    var p, h := s.workers[w], s.shared;
    match act
    case ClaimTask(_) => h.(late := if h.cancelled then h.late + [w] else h.late)
    case MarkRan => h.(ranAny := true)
    case RecordError => h.(firstErr := if h.firstErr.None? then Some(p.failure) else h.firstErr)
    case Cancel => h.(cancelled := true, canceller := if h.canceller.None? then Some(w) else h.canceller)
    case _ => h
  }

  predicate Legal(s: Pool, m: Move) {
    match m
    case OuterCancel => !s.shared.outerDone
    case Do(w, act) => Enabled(s, w, act)
  }

  function Step(s: Pool, m: Move): Pool
    requires Legal(s, m)
  {
    match m
    case OuterCancel => s.(shared := s.shared.(outerDone := true))
    case Do(w, act) =>
      Pool(s.job, NextQueue(s, w, act), NextShared(s, w, act), s.workers[w := NextPhase(s, w, act)])
  }

  predicate AllLegal(s: Pool, moves: seq<Move>)
    decreases |moves|
  {
    moves == [] || (Legal(s, moves[0]) && AllLegal(Step(s, moves[0]), moves[1..]))
  }

  /** The state an interleaving leads to. */
  function Play(s: Pool, moves: seq<Move>): Pool
    requires AllLegal(s, moves)
    decreases |moves|
  {
    if moves == [] then s else Play(Step(s, moves[0]), moves[1..])
  }

  /** Every worker has returned, so the wait group lets the drain return. */
  predicate Over(s: Pool) {
    forall w :: 0 <= w < |s.workers| ==> s.workers[w].Exited?
  }

  // ---- Invariant 1: every task is in exactly one place ----

  ghost predicate Placed(job: Job, q: Queue, ws: seq<Phase>) {
    && (forall t :: t in q.ready ==> t in job.roles && t !in q.owner)
    && (forall t :: t in job.roles ==> t in q.ready || t in q.owner)
    && (forall t :: t in q.owner ==> OwnedWell(job, q, ws, t))
    && q.done.Keys <= q.owner.Keys && q.lost <= q.owner.Keys && q.done.Keys !! q.lost
    && (forall w :: 0 <= w < |ws| && Holding(ws[w]).Some? ==> HeldWell(q, w, Holding(ws[w]).value))
  }

  ghost predicate OwnedWell(job: Job, q: Queue, ws: seq<Phase>, t: nat)
    requires t in q.owner
  {
    t in job.roles && q.owner[t] < |ws| && (t in q.done || t in q.lost || Holding(ws[q.owner[t]]) == Some(t))
  }

  ghost predicate HeldWell(q: Queue, w: nat, t: nat) {
    t in q.owner && q.owner[t] == w && t !in q.done && t !in q.lost
  }

  /** A step that moves no task: the worker goes on holding what it held. */
  lemma PlacedStay(job: Job, q: Queue, q': Queue, ws: seq<Phase>, w: nat, p: Phase)
    requires Placed(job, q, ws) && w < |ws| && Holding(p) == Holding(ws[w])
    requires q'.ready == q.ready && q'.owner == q.owner && q'.done == q.done && q'.lost == q.lost
    ensures Placed(job, q', ws[w := p])
  {
    var ws' := ws[w := p];
    forall t | t in q'.owner ensures OwnedWell(job, q', ws', t) {
      assert OwnedWell(job, q, ws, t);
    }
    forall v | 0 <= v < |ws| && Holding(ws'[v]).Some? ensures HeldWell(q', v, Holding(ws'[v]).value) {
      assert HeldWell(q, v, Holding(ws[v]).value);
    }
  }

  lemma PlacedClaim(job: Job, q: Queue, ws: seq<Phase>, w: nat, t: nat)
    requires Placed(job, q, ws) && w < |ws| && Holding(ws[w]).None? && t in q.ready
    ensures Placed(job, q.(ready := q.ready - {t}, owner := q.owner[t := w]), ws[w := Claimed(t)])
  {
    var q', ws' := q.(ready := q.ready - {t}, owner := q.owner[t := w]), ws[w := Claimed(t)];
    forall u | u in q'.owner ensures OwnedWell(job, q', ws', u) {
      if u != t { assert OwnedWell(job, q, ws, u); }
    }
    forall v | 0 <= v < |ws| && Holding(ws'[v]).Some? ensures HeldWell(q', v, Holding(ws'[v]).value) {
      if v != w { assert HeldWell(q, v, Holding(ws[v]).value); }
    }
  }

  /** A step in which the worker lets go of its task, finished or lost. */
  lemma PlacedRelease(job: Job, q: Queue, q': Queue, ws: seq<Phase>, w: nat, p: Phase)
    requires Placed(job, q, ws) && w < |ws| && Holding(ws[w]).Some? && Holding(p).None?
    requires q'.ready == q.ready && q'.owner == q.owner
    requires (q'.done.Keys == q.done.Keys + {Holding(ws[w]).value} && q'.lost == q.lost)
             || (q'.done == q.done && q'.lost == q.lost + {Holding(ws[w]).value})
    ensures Placed(job, q', ws[w := p])
  {
    var t, ws' := Holding(ws[w]).value, ws[w := p];
    assert HeldWell(q, w, t);
    forall u | u in q'.owner ensures OwnedWell(job, q', ws', u) {
      assert OwnedWell(job, q, ws, u);
    }
    forall v | 0 <= v < |ws| && Holding(ws'[v]).Some? ensures HeldWell(q', v, Holding(ws'[v]).value) {
      assert HeldWell(q, v, Holding(ws[v]).value);
    }
  }

  lemma PlacedStep(s: Pool, w: nat, act: Act)
    requires Placed(s.job, s.queue, s.workers) && Enabled(s, w, act)
    ensures Placed(s.job, NextQueue(s, w, act), s.workers[w := NextPhase(s, w, act)])
  {
    var q', p := NextQueue(s, w, act), NextPhase(s, w, act);
    if act.ClaimTask? {
      PlacedClaim(s.job, s.queue, s.workers, w, act.task);
    } else if Holding(p) == Holding(s.workers[w]) {
      PlacedStay(s.job, s.queue, q', s.workers, w, p);
    } else {
      PlacedRelease(s.job, s.queue, q', s.workers, w, p);
    }
  }

  // ---- Invariant 2: errors, the cancel, and why a worker may leave ----

  /** A failure that may be reported: a role's model call fails the drain only
      for a seat outside the four contained ones. */
  predicate Reportable(job: Job, f: Failure) {
    match f
    case RoleFailed(role) => !Contained(role) && role in job.roles.Values
    case NoBackend(role) => role !in job.backends && role in job.roles.Values
    case _ => true
  }

  /** What a worker's phase says about the shared variables. */
  ghost predicate PhaseFits(job: Job, q: Queue, h: Shared, p: Phase) {
    match p
    case Failing(f) => Reportable(job, f)
    case Cancelling => h.firstErr.Some?
    case Exited => h.outerDone || h.firstErr.Some? || q.ready == {}
    case _ => true
  }

  ghost predicate ErrorsKept(job: Job, q: Queue, h: Shared, ws: seq<Phase>) {
    && (h.cancelled ==> h.firstErr.Some?)
    && (h.firstErr.Some? ==> Reportable(job, h.firstErr.value))
    && (forall w :: 0 <= w < |ws| ==> PhaseFits(job, q, h, ws[w]))
    && (forall t :: t in q.lost ==> LossNoted(q, h, ws, t))
  }

  /** A lost task's failure is already the drain's error, or its worker is
      still on the way to record it. */
  ghost predicate LossNoted(q: Queue, h: Shared, ws: seq<Phase>, t: nat) {
    h.firstErr.Some? || (t in q.owner && q.owner[t] < |ws| && ws[q.owner[t]].Failing?)
  }

  lemma ErrorsKeptMove(job: Job, q: Queue, q': Queue, h: Shared, h': Shared, ws: seq<Phase>, w: nat, p: Phase)
    requires ErrorsKept(job, q, h, ws) && w < |ws|
    requires q'.ready <= q.ready && (h.outerDone ==> h'.outerDone) && (h.firstErr.Some? ==> h'.firstErr == h.firstErr)
    requires h'.cancelled ==> h'.firstErr.Some?
    requires h'.firstErr.Some? ==> Reportable(job, h'.firstErr.value)
    requires PhaseFits(job, q', h', p)
    requires ws[w].Failing? ==> h'.firstErr.Some?
    requires forall t :: t in q.lost ==> (t in q.owner ==> t in q'.owner && q'.owner[t] == q.owner[t])
    requires forall t :: t in q'.lost && t !in q.lost ==> t in q'.owner && q'.owner[t] == w && p.Failing?
    ensures ErrorsKept(job, q', h', ws[w := p])
  {
    var ws' := ws[w := p];
    forall v | 0 <= v < |ws| ensures PhaseFits(job, q', h', ws'[v]) {
      assert PhaseFits(job, q, h, ws[v]);
    }
    forall t | t in q'.lost ensures LossNoted(q', h', ws', t) {
      if t in q.lost { assert LossNoted(q, h, ws, t); }
    }
  }

  lemma ErrorsKeptStep(s: Pool, w: nat, act: Act)
    requires Placed(s.job, s.queue, s.workers) && ErrorsKept(s.job, s.queue, s.shared, s.workers) && Enabled(s, w, act)
    ensures ErrorsKept(s.job, NextQueue(s, w, act), NextShared(s, w, act), s.workers[w := NextPhase(s, w, act)])
  {
    assert PhaseFits(s.job, s.queue, s.shared, s.workers[w]);
    if Holding(s.workers[w]).Some? {
      assert HeldWell(s.queue, w, Holding(s.workers[w]).value);
      assert OwnedWell(s.job, s.queue, s.workers, Holding(s.workers[w]).value);
    }
    ErrorsKeptMove(s.job, s.queue, NextQueue(s, w, act), s.shared, NextShared(s, w, act), s.workers, w,
      NextPhase(s, w, act));
  }

  // ---- Invariant 3: claims after the cancel ----

  ghost predicate LateFew(h: Shared, ws: seq<Phase>) {
    && NoDup(h.late)
    && (h.late != [] ==> h.cancelled)
    && (h.cancelled ==> h.canceller.Some?)
    && (h.canceller.Some? ==> h.canceller.value < |ws| && ws[h.canceller.value].Exited?)
    && (forall i :: 0 <= i < |h.late| ==> LateSpent(h, ws, h.late[i]))
  }

  /** A worker that claimed after the cancel is not the one that cancelled and
      is past its last claim. */
  ghost predicate LateSpent(h: Shared, ws: seq<Phase>, w: nat) {
    w < |ws| && Some(w) != h.canceller && !ws[w].Claiming?
  }

  lemma LateFewStep(s: Pool, w: nat, act: Act)
    requires LateFew(s.shared, s.workers) && Enabled(s, w, act)
    ensures LateFew(NextShared(s, w, act), s.workers[w := NextPhase(s, w, act)])
  {
    var h, h', ws' := s.shared, NextShared(s, w, act), s.workers[w := NextPhase(s, w, act)];
    assert h.canceller.Some? ==> w != h.canceller.value;
    forall i | 0 <= i < |h'.late| ensures LateSpent(h', ws', h'.late[i]) {
      if i < |h.late| {
        assert LateSpent(h, s.workers, h.late[i]);
      }
    }
    if act.ClaimTask? {
      assert forall i :: 0 <= i < |h.late| ==> LateSpent(h, s.workers, h.late[i]) && h.late[i] != w;
    }
  }

  lemma AtMostOthersClaimLate(h: Shared, ws: seq<Phase>)
    requires LateFew(h, ws) && |ws| > 0
    ensures |h.late| <= |ws| - 1
  {
    if h.late != [] {
      var room := Below(|ws|) - {h.canceller.value};
      forall w | w in h.late ensures w in room {
        var i :| 0 <= i < |h.late| && h.late[i] == w;
        assert LateSpent(h, ws, h.late[i]);
      }
      NoDupFits(h.late, room);
    }
  }

  // ---- Invariant 4: what is on the queue for each task ----

  /** The findings filed under one task, in filing order. */
  function FiledFor(fs: seq<Finding>, t: nat): seq<Finding> {
    if fs == [] then []
    else
      var last := fs[|fs| - 1];
      FiledFor(fs[..|fs| - 1], t) + (if last.task == t then [last] else [])
  }

  lemma FiledForAppend(fs: seq<Finding>, f: Finding, t: nat)
    ensures FiledFor(fs + [f], t) == FiledFor(fs, t) + (if f.task == t then [f] else [])
  {
    assert (fs + [f])[..|fs|] == fs;
  }

  /** All but todo of what task t's answered call calls for is on the queue:
      its findings stamped and in order, under the result it completes with. */
  ghost predicate Delivered(job: Job, answers: map<nat, Call>, filed: seq<Finding>,
                            t: nat, result: string, todo: seq<Finding>) {
    t in job.roles && t in answers &&
    var plan := PlanFor(job.roles[t], answers[t]);
    && plan.Complete? && plan.result == result
    && FiledFor(filed, t) + StampAll(todo, job.mission, t, job.roles[t])
       == StampAll(plan.findings, job.mission, t, job.roles[t])
  }

  ghost predicate PhaseDelivers(job: Job, q: Queue, p: Phase) {
    match p
    case Claimed(t) => t !in q.answers
    case Calling(t) => t !in q.answers
    case Filing(t, result, todo) => Delivered(job, q.answers, q.filed, t, result, todo)
    case _ => true
  }

  ghost predicate WorkKept(job: Job, q: Queue, ws: seq<Phase>) {
    && q.answers.Keys <= q.owner.Keys
    && (forall t :: t !in q.answers ==> FiledFor(q.filed, t) == [])
    && (forall w :: 0 <= w < |ws| ==> PhaseDelivers(job, q, ws[w]))
    && (forall t :: t in q.done ==> Delivered(job, q.answers, q.filed, t, q.done[t], []))
    && (forall f :: f in q.filed ==> Acceptable(f))
  }

  /** A step that neither answers a call nor files: what is delivered stays so. */
  lemma WorkKeptQuiet(job: Job, q: Queue, q': Queue, ws: seq<Phase>, w: nat, p: Phase)
    requires WorkKept(job, q, ws) && w < |ws|
    requires q'.answers == q.answers && q'.filed == q.filed && q.owner.Keys <= q'.owner.Keys
    requires PhaseDelivers(job, q, p)
    requires forall t :: t in q'.done ==>
               (t in q.done && q'.done[t] == q.done[t]) || ws[w] == Filing(t, q'.done[t], [])
    ensures WorkKept(job, q', ws[w := p])
  {
    var ws' := ws[w := p];
    assert PhaseDelivers(job, q, ws[w]);
    forall v | 0 <= v < |ws'| ensures PhaseDelivers(job, q', ws'[v]) {
      assert PhaseDelivers(job, q, ws[v]);
    }
  }

  lemma WorkKeptCall(s: Pool, w: nat, call: Call)
    requires Placed(s.job, s.queue, s.workers) && WorkKept(s.job, s.queue, s.workers) && Enabled(s, w, CallRole(call))
    ensures WorkKept(s.job, NextQueue(s, w, CallRole(call)), s.workers[w := NextPhase(s, w, CallRole(call))])
  {
    var job, q, ws, t := s.job, s.queue, s.workers, s.workers[w].task;
    var q', ws' := NextQueue(s, w, CallRole(call)), ws[w := NextPhase(s, w, CallRole(call))];
    assert HeldWell(q, w, t) && PhaseDelivers(job, q, ws[w]);
    forall v | 0 <= v < |ws'| ensures PhaseDelivers(job, q', ws'[v]) {
      assert PhaseDelivers(job, q, ws[v]);
      if v != w && Holding(ws[v]).Some? {
        assert HeldWell(q, v, Holding(ws[v]).value);
      }
    }
    forall u | u in q'.done ensures Delivered(job, q'.answers, q'.filed, u, q'.done[u], []) {
      assert Delivered(job, q.answers, q.filed, u, q.done[u], []);
    }
  }

  /** Filing one finding takes it off its own task's list and off no other. */
  lemma DeliveredFile(job: Job, answers: map<nat, Call>, filed: seq<Finding>, f: Finding,
                      t: nat, result: string, todo: seq<Finding>)
    requires Delivered(job, answers, filed, t, result, todo)
    requires f.task == t ==> todo != [] && f == Stamp(todo[0], job.mission, t, job.roles[t])
    ensures Delivered(job, answers, filed + [f], t, result, if f.task == t then todo[1..] else todo)
  {
    FiledForAppend(filed, f, t);
    if f.task == t {
      var before, rest := FiledFor(filed, t), StampAll(todo[1..], job.mission, t, job.roles[t]);
      assert before + ([f] + rest) == (before + [f]) + rest;
    }
  }

  lemma WorkKeptFile(s: Pool, w: nat)
    requires Placed(s.job, s.queue, s.workers) && WorkKept(s.job, s.queue, s.workers) && Enabled(s, w, FileOne)
    ensures WorkKept(s.job, NextQueue(s, w, FileOne), s.workers[w := NextPhase(s, w, FileOne)])
  {
    var job, q, ws, p := s.job, s.queue, s.workers, s.workers[w];
    var f := Stamped(job, p);
    var q', ws' := NextQueue(s, w, FileOne), ws[w := NextPhase(s, w, FileOne)];
    assert HeldWell(q, w, p.task) && PhaseDelivers(job, q, p);
    forall u | u !in q'.answers ensures FiledFor(q'.filed, u) == [] {
      FiledForAppend(q.filed, f, u);
    }
    forall v | 0 <= v < |ws'| ensures PhaseDelivers(job, q', ws'[v]) {
      assert PhaseDelivers(job, q, ws[v]);
      if ws[v].Filing? {
        assert HeldWell(q, v, ws[v].task);
        DeliveredFile(job, q.answers, q.filed, f, ws[v].task, ws[v].result, ws[v].todo);
      }
    }
    forall u | u in q'.done ensures Delivered(job, q'.answers, q'.filed, u, q'.done[u], []) {
      DeliveredFile(job, q.answers, q.filed, f, u, q.done[u], []);
    }
  }

  lemma WorkKeptStep(s: Pool, w: nat, act: Act)
    requires Placed(s.job, s.queue, s.workers) && WorkKept(s.job, s.queue, s.workers) && Enabled(s, w, act)
    ensures WorkKept(s.job, NextQueue(s, w, act), s.workers[w := NextPhase(s, w, act)])
  {
    match act
    case CallRole(call) => WorkKeptCall(s, w, call);
    case FileOne => WorkKeptFile(s, w);
    case _ =>
      assert PhaseDelivers(s.job, s.queue, s.workers[w]);
      WorkKeptQuiet(s.job, s.queue, NextQueue(s, w, act), s.workers, w, NextPhase(s, w, act));
  }

  // ---- Invariant 5: whether anything ran ----

  ghost predicate RanKept(q: Queue, h: Shared, ws: seq<Phase>) {
    && (h.ranAny ==> q.owner != map[])
    && (forall t :: t in q.owner ==> h.ranAny || (q.owner[t] < |ws| && ws[q.owner[t]].Claimed?))
  }

  lemma RanKeptStep(s: Pool, w: nat, act: Act)
    requires RanKept(s.queue, s.shared, s.workers) && Enabled(s, w, act)
    requires Placed(s.job, s.queue, s.workers)
    ensures RanKept(NextQueue(s, w, act), NextShared(s, w, act), s.workers[w := NextPhase(s, w, act)])
  {
    if Holding(s.workers[w]).Some? {
      assert HeldWell(s.queue, w, Holding(s.workers[w]).value);
    }
    if act.ClaimTask? {
      assert act.task in NextQueue(s, w, act).owner;
    }
  }

  // ---- All of it, over whole drains ----

  ghost predicate Good(s: Pool) {
    && |s.workers| > 0
    && Placed(s.job, s.queue, s.workers)
    && ErrorsKept(s.job, s.queue, s.shared, s.workers)
    && LateFew(s.shared, s.workers)
    && WorkKept(s.job, s.queue, s.workers)
    && RanKept(s.queue, s.shared, s.workers)
  }

  /** What no step changes or takes back; the first error recorded stays. */
  ghost predicate Grows(s: Pool, s': Pool) {
    && s'.job == s.job && |s'.workers| == |s.workers|
    && s'.queue.ready <= s.queue.ready
    && s.queue.owner.Keys <= s'.queue.owner.Keys
    && s.queue.answers.Keys <= s'.queue.answers.Keys
    && s.queue.done.Keys <= s'.queue.done.Keys
    && s.queue.filed <= s'.queue.filed
    && (s.shared.firstErr.Some? ==> s'.shared.firstErr == s.shared.firstErr)
    && (s.shared.cancelled ==> s'.shared.cancelled)
    && (s.shared.outerDone ==> s'.shared.outerDone)
  }

  lemma StartGood(job: Job, swarm: int, outerDone: bool)
    ensures Good(Start(job, swarm, outerDone))
  {
  }

  lemma OuterCancelGood(s: Pool)
    requires Good(s) && !s.shared.outerDone
    ensures Good(Step(s, OuterCancel))
  {
    var h' := s.shared.(outerDone := true);
    forall w | 0 <= w < |s.workers| ensures PhaseFits(s.job, s.queue, h', s.workers[w]) {
      assert PhaseFits(s.job, s.queue, s.shared, s.workers[w]);
    }
    forall t | t in s.queue.lost ensures LossNoted(s.queue, h', s.workers, t) {
      assert LossNoted(s.queue, s.shared, s.workers, t);
    }
    forall i | 0 <= i < |h'.late| ensures LateSpent(h', s.workers, h'.late[i]) {
      assert LateSpent(s.shared, s.workers, s.shared.late[i]);
    }
  }

  lemma StepGood(s: Pool, m: Move)
    requires Good(s) && Legal(s, m)
    ensures Good(Step(s, m))
  {
    match m
    case OuterCancel => OuterCancelGood(s);
    case Do(w, act) =>
      PlacedStep(s, w, act);
      ErrorsKeptStep(s, w, act);
      LateFewStep(s, w, act);
      WorkKeptStep(s, w, act);
      RanKeptStep(s, w, act);
  }

  lemma StepGrows(s: Pool, m: Move)
    requires Legal(s, m)
    ensures Grows(s, Step(s, m))
  {
  }

  lemma {:induction false} PlayGood(s: Pool, moves: seq<Move>)
    requires Good(s) && AllLegal(s, moves)
    ensures Good(Play(s, moves)) && Grows(s, Play(s, moves))
    decreases |moves|
  {
    if moves != [] {
      StepGood(s, moves[0]);
      StepGrows(s, moves[0]);
      PlayGood(Step(s, moves[0]), moves[1..]);
    }
  }
}
