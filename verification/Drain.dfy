/** What every drain of the worker pool keeps: the main results about
    runReadyTasks, for any number of workers and any interleaving of them. */
module Drain {
  import opened Common
  import opened SeatPolicy
  import opened WorkerPool

  // ---- Safety at every moment of a drain ----

  /** The tasks claimed and neither finished nor lost. */
  function InFlight(q: Queue): set<nat> {
    q.owner.Keys - q.done.Keys - q.lost
  }

  lemma {:induction false} InjectionFits(ts: set<nat>, f: map<nat, nat>, room: set<nat>)
    requires forall t :: t in ts ==> t in f && f[t] in room
    requires forall t, u :: t in ts && u in ts && f[t] == f[u] ==> t == u
    ensures |ts| <= |room|
  {
    if ts != {} {
      var t :| t in ts;
      InjectionFits(ts - {t}, f, room - {f[t]});
    }
  }

  lemma InFlightFits(s: Pool)
    requires Placed(s.job, s.queue, s.workers)
    ensures |InFlight(s.queue)| <= |s.workers|
  {
    forall t | t in InFlight(s.queue)
      ensures s.queue.owner[t] < |s.workers| && Holding(s.workers[s.queue.owner[t]]) == Some(t)
    {
      assert OwnedWell(s.job, s.queue, s.workers, t);
    }
    InjectionFits(InFlight(s.queue), s.queue.owner, Below(|s.workers|));
  }

  /** At every moment of every drain: no more tasks in flight than workers, no
      more than the other workers' claims after the cancel, the cancel only
      after an error is recorded, and the bound on workers the clamp gives. */
  lemma DrainIsSafe(job: Job, swarm: int, outerDone: bool, moves: seq<Move>)
    requires AllLegal(Start(job, swarm, outerDone), moves)
    ensures var s := Play(Start(job, swarm, outerDone), moves);
            && |s.workers| == (if swarm < 1 then 1 else swarm)
            && |InFlight(s.queue)| <= |s.workers|
            && |s.shared.late| <= |s.workers| - 1
            && (s.shared.cancelled ==> s.shared.firstErr.Some?)
            && (forall f :: f in s.queue.filed ==> Acceptable(f))
  {
    var s := Play(Start(job, swarm, outerDone), moves);
    StartGood(job, swarm, outerDone);
    PlayGood(Start(job, swarm, outerDone), moves);
    InFlightFits(s);
    AtMostOthersClaimLate(s.shared, s.workers);
  }

  /** The first error recorded is the one the drain returns: no later step of
      any worker replaces it. */
  lemma {:induction false} FirstErrorStays(s: Pool, moves: seq<Move>)
    requires AllLegal(s, moves) && s.shared.firstErr.Some?
    ensures Play(s, moves).shared.firstErr == s.shared.firstErr
    decreases |moves|
  {
    if moves != [] {
      StepGrows(s, moves[0]);
      FirstErrorStays(Step(s, moves[0]), moves[1..]);
    }
  }

  // ---- No task twice ----

  lemma {:induction false} NeverClaimedAgain(s: Pool, moves: seq<Move>, j: nat, w: nat, t: nat)
    requires AllLegal(s, moves) && j < |moves| && t !in s.queue.ready
    ensures moves[j] != Do(w, ClaimTask(t))
    decreases |moves|
  {
    if j > 0 {
      StepGrows(s, moves[0]);
      NeverClaimedAgain(Step(s, moves[0]), moves[1..], j - 1, w, t);
    }
  }

  /** In one drain a task is claimed at most once, by one worker. */
  lemma {:induction false} ClaimedAtMostOnce(s: Pool, moves: seq<Move>, i: nat, j: nat, v: nat, w: nat, t: nat)
    requires AllLegal(s, moves) && i < |moves| && j < |moves|
    requires moves[i] == Do(v, ClaimTask(t)) && moves[j] == Do(w, ClaimTask(t))
    ensures i == j && v == w
    decreases |moves|
  {
    if i != j {
      if i == 0 || j == 0 {
        var later := i + j;
        NeverClaimedAgain(Step(s, moves[0]), moves[1..], later - 1, if i == 0 then w else v, t);
        assert false;
      } else {
        ClaimedAtMostOnce(Step(s, moves[0]), moves[1..], i - 1, j - 1, v, w, t);
      }
    }
  }

  /** A role is only ever run for a task no worker has run before, by the
      worker that claimed it. */
  lemma RunsOnlyFreshTasks(s: Pool, w: nat, call: Call)
    requires Good(s) && Enabled(s, w, CallRole(call))
    ensures var t := s.workers[w].task;
            t !in s.queue.answers && t in s.queue.owner && s.queue.owner[t] == w
  {
    var t := s.workers[w].task;
    assert HeldWell(s.queue, w, t);
    assert PhaseDelivers(s.job, s.queue, s.workers[w]);
  }

  /** The state in which the i-th move of a run is made. */
  function StateAt(s: Pool, moves: seq<Move>, i: nat): (r: Pool)
    requires AllLegal(s, moves) && i <= |moves|
    ensures i < |moves| ==> Legal(r, moves[i])
    decreases i
  {
    if i == 0 then s else StateAt(Step(s, moves[0]), moves[1..], i - 1)
  }

  lemma {:induction false} StateAtGood(s: Pool, moves: seq<Move>, i: nat)
    requires AllLegal(s, moves) && Good(s) && i <= |moves|
    ensures Good(StateAt(s, moves, i))
    decreases i
  {
    if i > 0 {
      StepGood(s, moves[0]);
      StateAtGood(Step(s, moves[0]), moves[1..], i - 1);
    }
  }

  lemma {:induction false} AnswersStay(s: Pool, moves: seq<Move>, i: nat, t: nat)
    requires AllLegal(s, moves) && i <= |moves| && t in s.queue.answers
    ensures t in StateAt(s, moves, i).queue.answers
    decreases i
  {
    if i > 0 {
      StepGrows(s, moves[0]);
      AnswersStay(Step(s, moves[0]), moves[1..], i - 1, t);
    }
  }

  /** The i-th move of the run has its worker run a role for task t. */
  predicate RunsRole(s: Pool, moves: seq<Move>, i: nat, t: nat)
    requires AllLegal(s, moves)
  {
    i < |moves| && moves[i].Do? && moves[i].act.CallRole? && StateAt(s, moves, i).workers[moves[i].worker].task == t
  }

  lemma {:induction false} RunIsAnswered(s: Pool, moves: seq<Move>, i: nat, j: nat, t: nat)
    requires AllLegal(s, moves) && RunsRole(s, moves, i, t) && i < j <= |moves|
    ensures t in StateAt(s, moves, j).queue.answers
    decreases i
  {
    var next := Step(s, moves[0]);
    if i == 0 {
      AnswersStay(next, moves[1..], j - 1, t);
    } else {
      RunIsAnswered(next, moves[1..], i - 1, j - 1, t);
    }
  }

  lemma NeverRunAgain(s: Pool, moves: seq<Move>, i: nat, j: nat, t: nat)
    requires AllLegal(s, moves) && Good(s) && RunsRole(s, moves, i, t) && i < j
    ensures !RunsRole(s, moves, j, t)
  {
    if j < |moves| && moves[j].Do? && moves[j].act.CallRole? {
      StateAtGood(s, moves, j);
      RunIsAnswered(s, moves, i, j, t);
      RunsOnlyFreshTasks(StateAt(s, moves, j), moves[j].worker, moves[j].act.call);
    }
  }

  /** In one drain no task is run twice: two model calls for one task are the
      same move of the same worker. */
  lemma RunsATaskOnce(job: Job, swarm: int, outerDone: bool, moves: seq<Move>, i: nat, j: nat, t: nat)
    requires AllLegal(Start(job, swarm, outerDone), moves)
    requires RunsRole(Start(job, swarm, outerDone), moves, i, t) && RunsRole(Start(job, swarm, outerDone), moves, j, t)
    ensures i == j
  {
    var s := Start(job, swarm, outerDone);
    StartGood(job, swarm, outerDone);
    if i < j {
      NeverRunAgain(s, moves, i, j, t);
    } else if j < i {
      NeverRunAgain(s, moves, j, i, t);
    }
  }

  /** q' has all that was answered, completed and filed in q, unchanged. */
  ghost predicate WorkStays(q: Queue, q': Queue) {
    && (forall t :: t in q.answers ==> t in q'.answers && q'.answers[t] == q.answers[t])
    && (forall t :: t in q.done ==> t in q'.done && q'.done[t] == q.done[t])
    && q.filed <= q'.filed
  }

  lemma FreshStepStays(s: Pool, w: nat, act: Act)
    requires Enabled(s, w, act)
    requires act.CallRole? ==> s.workers[w].task !in s.queue.answers
    requires act.Finish? ==> s.workers[w].task !in s.queue.done
    ensures WorkStays(s.queue, NextQueue(s, w, act))
  {
  }

  lemma FinishesOnce(s: Pool, w: nat)
    requires Good(s) && Enabled(s, w, Finish)
    ensures s.workers[w].task !in s.queue.done
  {
    assert HeldWell(s.queue, w, s.workers[w].task);
  }

  /** What a run has answered, completed or filed it never changes. */
  lemma {:induction false} WorkIsFinal(s: Pool, moves: seq<Move>)
    requires Good(s) && AllLegal(s, moves)
    ensures WorkStays(s.queue, Play(s, moves).queue)
    decreases |moves|
  {
    if moves != [] {
      var m := moves[0];
      if m.Do? {
        if m.act.CallRole? { RunsOnlyFreshTasks(s, m.worker, m.act.call); }
        if m.act.Finish? { FinishesOnce(s, m.worker); }
        FreshStepStays(s, m.worker, m.act);
      }
      StepGood(s, m);
      WorkIsFinal(Step(s, m), moves[1..]);
    }
  }

  // ---- What a finished drain leaves behind ----

  lemma CompletedAll(s: Pool)
    requires Good(s) && Over(s) && s.shared.firstErr.None? && !s.shared.outerDone
    ensures s.queue.done.Keys == s.job.roles.Keys
  {
    assert PhaseFits(s.job, s.queue, s.shared, s.workers[0]);
    assert s.queue.ready == {};
    assert forall t :: t in s.queue.done ==> t in s.job.roles by {
      assert forall t :: t in s.queue.owner ==> OwnedWell(s.job, s.queue, s.workers, t);
    }
    forall t | t in s.job.roles ensures t in s.queue.done {
      assert OwnedWell(s.job, s.queue, s.workers, t);
      assert t in s.queue.owner;
      assert t in s.queue.lost ==> LossNoted(s.queue, s.shared, s.workers, t);
      assert Holding(s.workers[s.queue.owner[t]]).None?;
    }
  }

  /** A drain that returns no error, with the caller's context never done, has
      completed every task that was ready when it began. */
  lemma CleanDrainCompletesAll(job: Job, swarm: int, outerDone: bool, moves: seq<Move>)
    requires AllLegal(Start(job, swarm, outerDone), moves)
    ensures var s := Play(Start(job, swarm, outerDone), moves);
            Over(s) && s.shared.firstErr.None? && !s.shared.outerDone ==> s.queue.done.Keys == job.roles.Keys
  {
    var s := Play(Start(job, swarm, outerDone), moves);
    StartGood(job, swarm, outerDone);
    PlayGood(Start(job, swarm, outerDone), moves);
    if Over(s) && s.shared.firstErr.None? && !s.shared.outerDone {
      CompletedAll(s);
    }
  }

  /** The drain's own answer, whether at least one task ran, is whether one was
      claimed. */
  lemma RanAnyIsTruthful(job: Job, swarm: int, outerDone: bool, moves: seq<Move>)
    requires AllLegal(Start(job, swarm, outerDone), moves)
    ensures var s := Play(Start(job, swarm, outerDone), moves);
            Over(s) ==> (s.shared.ranAny <==> s.queue.owner != map[])
  {
    var s := Play(Start(job, swarm, outerDone), moves);
    StartGood(job, swarm, outerDone);
    PlayGood(Start(job, swarm, outerDone), moves);
    if Over(s) && s.queue.owner != map[] {
      assert s.queue.owner.Keys != {};
      var t :| t in s.queue.owner.Keys;
    }
  }

  /** Seat failures are contained across the whole pool. A model call can fail
      the drain only for a seat that is none of the two challengers, the
      test-writer and the critic; a missing backend, only for a role without one. */
  lemma OnlyOtherSeatsFailTheDrain(job: Job, swarm: int, outerDone: bool, moves: seq<Move>)
    requires AllLegal(Start(job, swarm, outerDone), moves)
    ensures var err := Play(Start(job, swarm, outerDone), moves).shared.firstErr;
            && (err.Some? && err.value.RoleFailed? ==>
                  err.value.role in job.roles.Values
                  && err.value.role !in
                       {RoleTestWriter, RoleTestCritic, RoleMutantGeneratorShadow, RoleTestWriterShadow})
            && (err.Some? && err.value.NoBackend? ==>
                  err.value.role in job.roles.Values && err.value.role !in job.backends)
  {
    StartGood(job, swarm, outerDone);
    PlayGood(Start(job, swarm, outerDone), moves);
  }

  /** The move is an operator's interrupt or an error of the queue. */
  predicate Disturbs(m: Move) {
    m.Do? && match m.act
             case ClaimError => true
             case FileError => true
             case FinishError => true
             case CallRole(call) => call.Errored? && call.interrupted
             case _ => false
  }

  predicate Undisturbed(moves: seq<Move>) {
    forall m :: m in moves ==> !Disturbs(m)
  }

  predicate SeatFailure(f: Failure) {
    f.RoleFailed? || f.NoBackend?
  }

  /** Every failure recorded, or about to be, is a seat's. */
  ghost predicate OnlySeatFailures(s: Pool) {
    && (s.shared.firstErr.Some? ==> SeatFailure(s.shared.firstErr.value))
    && (forall w :: 0 <= w < |s.workers| && s.workers[w].Failing? ==> SeatFailure(s.workers[w].failure))
  }

  lemma {:induction false} UndisturbedRun(s: Pool, moves: seq<Move>)
    requires AllLegal(s, moves) && OnlySeatFailures(s)
    requires Undisturbed(moves)
    ensures OnlySeatFailures(Play(s, moves))
    decreases |moves|
  {
    if moves != [] {
      assert moves[0] in moves && forall m :: m in moves[1..] ==> m in moves;
      UndisturbedRun(Step(s, moves[0]), moves[1..]);
    }
  }

  /** A failure by a role of the job that is not contained, or has no backend. */
  predicate FailsThroughItsRole(job: Job, f: Failure) {
    || (f.RoleFailed? && f.role in job.roles.Values && !Contained(f.role))
    || (f.NoBackend? && f.role in job.roles.Values && f.role !in job.backends)
  }

  lemma StartsUndisturbed(job: Job, swarm: int, outerDone: bool)
    ensures OnlySeatFailures(Start(job, swarm, outerDone)) && Start(job, swarm, outerDone).job == job
  {
  }

  lemma GoodSeatFailure(s: Pool)
    requires Good(s) && OnlySeatFailures(s) && s.shared.firstErr.Some?
    ensures FailsThroughItsRole(s.job, s.shared.firstErr.value)
  {
  }

  /** Absent an operator's interrupt and a queue error, a drain fails only through
      a role that is none of the two challengers, the test-writer and the critic,
      or through a role no backend serves. */
  lemma UndisturbedDrainFails(job: Job, swarm: int, outerDone: bool, moves: seq<Move>)
    requires AllLegal(Start(job, swarm, outerDone), moves)
    requires Undisturbed(moves)
    ensures var err := Play(Start(job, swarm, outerDone), moves).shared.firstErr;
            err.Some? ==> FailsThroughItsRole(job, err.value)
  {
    StartGood(job, swarm, outerDone);
    StartsUndisturbed(job, swarm, outerDone);
    UndisturbedFrom(Start(job, swarm, outerDone), moves);
  }

  lemma UndisturbedFrom(s: Pool, moves: seq<Move>)
    requires Good(s) && OnlySeatFailures(s) && AllLegal(s, moves)
    requires Undisturbed(moves)
    ensures var err := Play(s, moves).shared.firstErr;
            err.Some? ==> FailsThroughItsRole(s.job, err.value)
  {
    PlayGood(s, moves);
    UndisturbedRun(s, moves);
    if Play(s, moves).shared.firstErr.Some? {
      GoodSeatFailure(Play(s, moves));
    }
  }

  /** Every completed task was answered, completed with exactly what the answer
      calls for, and had all its findings filed, stamped with this run, the task
      and its role; a contained failure files nothing under its sentinel. */
  lemma CompletedMeansDelivered(job: Job, swarm: int, outerDone: bool, moves: seq<Move>, t: nat)
    requires AllLegal(Start(job, swarm, outerDone), moves)
    requires t in Play(Start(job, swarm, outerDone), moves).queue.done
    ensures var q := Play(Start(job, swarm, outerDone), moves).queue;
            && t in job.roles && t in q.answers
            && match q.answers[t] {
                 case Answered(result, findings) =>
                   q.done[t] == result && FiledFor(q.filed, t) == StampAll(findings, job.mission, t, job.roles[t])
                 case Errored(message, interrupted) =>
                   !interrupted && Contained(job.roles[t])
                   && q.done[t] == Sentinel(job.roles[t], message) && FiledFor(q.filed, t) == []
               }
  {
    var s := Play(Start(job, swarm, outerDone), moves);
    StartGood(job, swarm, outerDone);
    PlayGood(Start(job, swarm, outerDone), moves);
    assert Delivered(s.job, s.queue.answers, s.queue.filed, t, s.queue.done[t], []);
    assert FiledFor(s.queue.filed, t) + [] == FiledFor(s.queue.filed, t);
  }

  /** No drain gets stuck: a worker that has not returned can step. With
      DrainEnds.NoInfiniteDrain, every drain reaches its end. */
  lemma NeverStuck(s: Pool, w: nat) returns (act: Act)
    requires Good(s) && w < |s.workers| && !s.workers[w].Exited?
    ensures Enabled(s, w, act)
  {
    if Holding(s.workers[w]).Some? {
      var t := Holding(s.workers[w]).value;
      assert HeldWell(s.queue, w, t);
      assert OwnedWell(s.job, s.queue, s.workers, t);
    }
    match s.workers[w]
    case AtTop => act := CheckContext;
    case Claiming =>
      if s.queue.ready == {} {
        act := ClaimNothing;
      } else {
        var t :| t in s.queue.ready;
        act := ClaimTask(t);
      }
    case Claimed(_) => act := MarkRan;
    case Calling(t) =>
      if s.job.roles[t] in s.job.backends { act := CallRole(Answered("", [])); } else { act := FindNoBackend; }
    case Filing(_, _, todo) => act := if todo == [] then Finish else FileError;
    case Failing(_) => act := RecordError;
    case Cancelling => act := Cancel;
  }

  // ---- When the caller's context is done ----

  /** No worker holds or is about to claim a task. */
  ghost predicate Idle(s: Pool) {
    s.shared.outerDone && !s.shared.ranAny && s.queue.owner == map[] &&
    forall w :: 0 <= w < |s.workers| ==> s.workers[w].AtTop? || s.workers[w].Exited?
  }

  lemma {:induction false} IdleStays(s: Pool, moves: seq<Move>)
    requires AllLegal(s, moves) && Idle(s)
    ensures Idle(Play(s, moves))
    decreases |moves|
  {
    if moves != [] {
      IdleStays(Step(s, moves[0]), moves[1..]);
    }
  }

  /** A drain whose caller's context is done when it begins claims nothing at any
      moment, records no error and answers that nothing ran. */
  lemma DoneContextClaimsNothing(job: Job, swarm: int, moves: seq<Move>)
    requires AllLegal(Start(job, swarm, true), moves)
    ensures var s := Play(Start(job, swarm, true), moves);
            s.queue.owner == map[] && !s.shared.ranAny
  {
    IdleStays(Start(job, swarm, true), moves);
  }

  /** The workers that claim a task in a run, in order. */
  function Claimers(moves: seq<Move>): seq<nat>
    decreases |moves|
  {
    if moves == [] then []
    else (if moves[0].Do? && moves[0].act.ClaimTask? then [moves[0].worker] else []) + Claimers(moves[1..])
  }

  ghost predicate WasClaiming(s: Pool, w: nat) {
    w < |s.workers| && s.workers[w].Claiming?
  }

  /** Once the caller's context is done no worker comes to claim any more. */
  lemma NoneComesToClaim(s: Pool, m: Move, w: nat)
    requires Legal(s, m) && s.shared.outerDone && WasClaiming(Step(s, m), w)
    ensures WasClaiming(s, w) && (m.Do? ==> m.worker != w)
  {
  }

  lemma {:induction false} ClaimersWereClaiming(s: Pool, moves: seq<Move>)
    requires AllLegal(s, moves) && s.shared.outerDone
    ensures forall w :: w in Claimers(moves) ==> WasClaiming(s, w)
    ensures NoDup(Claimers(moves))
    decreases |moves|
  {
    if moves != [] {
      var m, next := moves[0], Step(s, moves[0]);
      ClaimersWereClaiming(next, moves[1..]);
      forall w | w in Claimers(moves[1..])
        ensures WasClaiming(s, w) && (m.Do? ==> m.worker != w)
      {
        NoneComesToClaim(s, m, w);
      }
      if m.Do? && m.act.ClaimTask? {
        var rest := Claimers(moves[1..]);
        assert Claimers(moves) == [m.worker] + rest;
        assert forall k :: 0 <= k < |rest| ==> rest[k] in rest;
      } else {
        assert Claimers(moves) == [] + Claimers(moves[1..]) == Claimers(moves[1..]);
      }
    }
  }

  /** After the caller's context is done at most one more task is claimed by each
      worker, and only by those that had found it live and were about to claim. */
  lemma DoneContextStopsClaims(s: Pool, moves: seq<Move>)
    requires AllLegal(s, moves) && s.shared.outerDone
    ensures NoDup(Claimers(moves)) && |Claimers(moves)| <= |s.workers|
    ensures forall w :: w in Claimers(moves) ==> WasClaiming(s, w)
  {
    ClaimersWereClaiming(s, moves);
    NoDupFits(Claimers(moves), Below(|s.workers|));
  }

  // ---- Errors ----

  /** The worker's move meets an error: of the queue, of its role, or no backend. */
  predicate Errs(s: Pool, m: Move)
    requires Legal(s, m)
  {
    m.Do? && match m.act
             case ClaimError => true
             case FindNoBackend => true
             case FileError => true
             case FinishError => true
             case CallRole(call) =>
               var role := s.job.roles[s.workers[m.worker].task];
               call.Errored? && (call.interrupted || role !in
                 {"test-writer", "test-critic", "mutant-generator-shadow", "test-writer-shadow"})
             case _ => false
  }

  ghost predicate Pending(s: Pool) {
    || (s.shared.firstErr.Some? && s.shared.cancelled)
    || (exists w :: 0 <= w < |s.workers| && s.workers[w].Failing?)
    || (s.shared.firstErr.Some? && exists w :: 0 <= w < |s.workers| && s.workers[w].Cancelling?)
  }

  lemma PendingStep(s: Pool, m: Move)
    requires Legal(s, m) && Pending(s)
    ensures Pending(Step(s, m))
  {
    var s' := Step(s, m);
    if m.Do? {
      assert forall w :: 0 <= w < |s.workers| && w != m.worker ==> s'.workers[w] == s.workers[w];
      if m.act.RecordError? {
        assert s'.workers[m.worker].Cancelling? && s'.shared.firstErr.Some?;
      } else if s.workers[m.worker].Cancelling? {
        assert s'.shared.cancelled;
      }
    }
  }

  lemma {:induction false} PendingPlay(s: Pool, moves: seq<Move>)
    requires AllLegal(s, moves) && Pending(s)
    ensures Pending(Play(s, moves))
    decreases |moves|
  {
    if moves != [] {
      PendingStep(s, moves[0]);
      PendingPlay(Step(s, moves[0]), moves[1..]);
    }
  }

  lemma ErrPends(s: Pool, m: Move)
    requires Legal(s, m) && Errs(s, m)
    ensures Pending(Step(s, m))
  {
    assert Step(s, m).workers[m.worker].Failing?;
  }

  /** No error is swallowed: a drain in which a worker met one ends with an error
      recorded and the other workers told to stop. */
  lemma {:induction false} ErrorsEndTheDrain(s: Pool, moves: seq<Move>, i: nat)
    requires AllLegal(s, moves) && i < |moves| && Errs(StateAt(s, moves, i), moves[i])
    ensures var end := Play(s, moves);
            Over(end) ==> end.shared.firstErr.Some? && end.shared.cancelled
    decreases i
  {
    if i == 0 {
      ErrPends(s, moves[0]);
      PendingPlay(Step(s, moves[0]), moves[1..]);
    } else {
      ErrorsEndTheDrain(Step(s, moves[0]), moves[1..], i - 1);
    }
  }

  /** The move is one that gives rise to such a failure. */
  predicate GivesRise(m: Move, f: Failure) {
    m.Do? && match f
             case ClaimFailed => m.act.ClaimError?
             case NoBackend(_) => m.act.FindNoBackend?
             case Interrupted(_) => m.act.CallRole? && m.act.call.Errored? && m.act.call.interrupted
             case RoleFailed(_) => m.act.CallRole? && m.act.call.Errored? && !m.act.call.interrupted
             case FindingRejected(_) => m.act.FileError?
             case CompletionFailed(_) => m.act.FinishError?
  }

  ghost predicate HasCause(moves: seq<Move>, f: Failure) {
    exists i :: 0 <= i < |moves| && GivesRise(moves[i], f)
  }

  /** The failures at hand in a state: the one recorded and those about to be. */
  ghost predicate AtHand(s: Pool, f: Failure) {
    s.shared.firstErr == Some(f) || exists w :: 0 <= w < |s.workers| && s.workers[w] == Failing(f)
  }

  lemma AtHandStep(s: Pool, m: Move, f: Failure)
    requires Legal(s, m) && AtHand(Step(s, m), f)
    ensures AtHand(s, f) || GivesRise(m, f)
  {
    var s' := Step(s, m);
    if m.Do? && s'.shared.firstErr != Some(f) {
      var w :| 0 <= w < |s'.workers| && s'.workers[w] == Failing(f);
      if w != m.worker {
        assert s.workers[w] == Failing(f);
      }
    }
  }

  lemma {:induction false} AtHandPlay(s: Pool, moves: seq<Move>, f: Failure)
    requires AllLegal(s, moves) && AtHand(Play(s, moves), f)
    ensures AtHand(s, f) || HasCause(moves, f)
    decreases |moves|
  {
    if moves != [] {
      AtHandPlay(Step(s, moves[0]), moves[1..], f);
      if HasCause(moves[1..], f) {
        var i :| 0 <= i < |moves[1..]| && GivesRise(moves[1..][i], f);
        assert moves[i + 1] == moves[1..][i];
      } else {
        AtHandStep(s, moves[0], f);
        assert GivesRise(moves[0], f) ==> HasCause(moves, f);
      }
    }
  }

  /** The error a drain records is of the kind of something that happened in it. */
  lemma ErrorHasItsCause(job: Job, swarm: int, outerDone: bool, moves: seq<Move>, f: Failure)
    requires AllLegal(Start(job, swarm, outerDone), moves)
    requires Play(Start(job, swarm, outerDone), moves).shared.firstErr == Some(f)
    ensures HasCause(moves, f)
  {
    AtHandPlay(Start(job, swarm, outerDone), moves, f);
  }
}
