/** The drive loop over real drains: what the loop's drain answers are when each
    is the end of an interleaving of the worker pool. */
module DriveDrains {
  import opened Common
  import opened SeatPolicy
  import opened WorkerPool
  import opened Drain
  import opened DriveLoop

  /** A drain: what it was given, and the moves its workers made. */
  datatype DrainRun = DrainRun(job: Job, swarm: int, outerDone: bool, moves: seq<Move>)

  predicate Finished(d: DrainRun) {
    AllLegal(Start(d.job, d.swarm, d.outerDone), d.moves) && Over(Play(Start(d.job, d.swarm, d.outerDone), d.moves))
  }

  function End(d: DrainRun): Pool
    requires Finished(d)
  {
    Play(Start(d.job, d.swarm, d.outerDone), d.moves)
  }

  /** The error the drain returns, as the loop sees it: it is an interrupt when it
      carries the operator's. */
  function ErrorOf(f: Failure): DrainEnd {
    match f
    case ClaimFailed => DrainError(false, "claiming next task")
    case NoBackend(role) => DrainError(false, "no model backend for role " + role)
    case Interrupted(role) => DrainError(true, "running role " + role)
    case RoleFailed(role) => DrainError(false, "running role " + role)
    case FindingRejected(role) => DrainError(false, "recording finding of " + role)
    case CompletionFailed(role) => DrainError(false, "completing role " + role)
  }

  /** What runReadyTasks returns. */
  function Answer(d: DrainRun): DrainEnd
    requires Finished(d)
  {
    match End(d).shared.firstErr
    case Some(f) => ErrorOf(f)
    case None => Drained(End(d).shared.ranAny)
  }

  /** The round's drain is d; an operator's interrupt recorded by the process may
      turn its error into an interrupt on the way. */
  predicate AnswersRound(d: DrainRun, r: Round) {
    Finished(d) &&
    (r.drain == Answer(d) || (Answer(d).DrainError? && r.drain == Answer(d).(interrupted := true)))
  }

  lemma DrainFacts(d: DrainRun)
    requires Finished(d) && Undisturbed(d.moves)
    ensures var err := End(d).shared.firstErr; err.Some? ==> FailsThroughItsRole(d.job, err.value)
    ensures End(d).shared.firstErr.None? && !End(d).shared.outerDone ==> End(d).queue.done.Keys == d.job.roles.Keys
    ensures End(d).shared.ranAny <==> End(d).queue.owner != map[]
  {
    UndisturbedDrainFails(d.job, d.swarm, d.outerDone, d.moves);
    CleanDrainCompletesAll(d.job, d.swarm, d.outerDone, d.moves);
    RanAnyIsTruthful(d.job, d.swarm, d.outerDone, d.moves);
  }

  /** A run of the loop whose drains see no operator interrupt and no queue error
      fails in a drain only through a role that is not contained or that no backend
      serves, and that is the error it returns. */
  lemma LoopFailsThroughItsRole(env: nat -> Round, n: nat, d: DrainRun)
    requires Ends(env, n) && OutcomeOf(env(n)).DrainFailed?
    requires AnswersRound(d, env(n)) && Undisturbed(d.moves)
    ensures var err := End(d).shared.firstErr;
            && err.Some? && FailsThroughItsRole(d.job, err.value)
            && ErrorOf(err.value) == DrainError(false, OutcomeOf(env(n)).message)
  {
    DrainFacts(d);
  }

  /** When every role is contained and served, such a drain never stops the loop:
      the round goes on to the next, with every ready task completed unless the
      outer context was done, and it waits only if nothing was ready. */
  lemma ContainedDrainsGoOn(env: nat -> Round, n: nat, d: DrainRun)
    requires AnswersRound(d, env(n)) && Undisturbed(d.moves)
    requires forall role :: role in d.job.roles.Values ==> Contained(role) && role in d.job.backends
    requires !env(n).interrupted && !env(n).expired && env(n).tick.Undecided?
    ensures !Ends(env, n)
    ensures !End(d).shared.outerDone ==>
              End(d).queue.done.Keys == d.job.roles.Keys && (Waits(env(n)) <==> d.job.roles == map[])
  {
    DrainFacts(d);
    assert End(d).shared.firstErr.None?;
    StartGood(d.job, d.swarm, d.outerDone);
    PlayGood(Start(d.job, d.swarm, d.outerDone), d.moves);
    if !End(d).shared.outerDone {
      OwnersAreReady(End(d));
      EmptyAlike(End(d).queue.owner, d.job.roles);
    }
  }

  /** A drain that ends on the operator's interrupt ends the loop as stopped, with
      no error to report. */
  lemma InterruptedDrainStops(env: nat -> Round, n: nat, d: DrainRun, role: string)
    requires AnswersRound(d, env(n)) && End(d).shared.firstErr == Some(Interrupted(role))
    requires !env(n).interrupted && !env(n).expired && env(n).tick.Undecided?
    ensures Ends(env, n) && OutcomeOf(env(n)) == StoppedByOperator
  {
    assert Answer(d).DrainError? && Answer(d).interrupted;
  }

  /** At the end of a clean drain the tasks claimed are the tasks it was given. */
  lemma OwnersAreReady(s: Pool)
    requires Good(s) && s.queue.done.Keys == s.job.roles.Keys
    ensures s.queue.owner.Keys == s.job.roles.Keys
  {
    forall t | t in s.queue.owner ensures t in s.job.roles {
      assert OwnedWell(s.job, s.queue, s.workers, t);
    }
  }

  lemma EmptyAlike<K, V, W>(a: map<K, V>, b: map<K, W>)
    requires a.Keys == b.Keys
    ensures a == map[] <==> b == map[]
  {
    assert a.Keys == {} <==> a == map[];
    assert b.Keys == {} <==> b == map[];
  }
}
