/** The in-process drive loop (driveLocalRun): tick the driver, drain the ready
    tasks, repeat, until a verdict, an error or the deadline. What the world
    answers in each round is an input. */
module DriveLoop {
  import opened Common

  /** localTickMaxErrors */
  const MaxTickErrors := 20

  datatype Verdict = Verdict(timedOut: bool, devScored: bool, record: string)

  datatype Tick =
    | Scored(verdict: Verdict)
    | Undecided
    | TickError(interrupted: bool, terminal: bool, message: string)

  datatype DrainEnd =
    | Drained(ran: bool)
    | DrainError(interrupted: bool, message: string)

  /** One round: whether the operator had interrupted and the context had
      expired when the round began, what the tick and the drain returned, and,
      should the loop need them, whether the context was expired after a failed
      drain and what one last tick on a detached context returns. */
  datatype Round = Round(
    interrupted: bool, expired: bool, tick: Tick,
    drain: DrainEnd, expiredAfterDrain: bool, lastTick: Tick)

  datatype Outcome =
    | Converged(verdict: Verdict)
    | Banked(verdict: Verdict)
    | StoppedByOperator
    | TimedOut
    | TerminalError(message: string)
    | GaveUp(message: string)
    | DrainFailed(message: string)

  /** A timeout verdict is banked only if it was measured. */
  function BankableTimeoutVerdict(lastTick: Tick): (v: Option<Verdict>)
    ensures v.Some? <==> lastTick.Scored? && lastTick.verdict.timedOut && lastTick.verdict.devScored
    ensures v.Some? ==> lastTick == Scored(v.value)
  {
    if lastTick.Scored? && lastTick.verdict.timedOut && lastTick.verdict.devScored
    then Some(lastTick.verdict) else None
  }

  /** An error the driver has reissued work for, to be tried again. */
  predicate Retryable(t: Tick) {
    t.TickError? && !t.interrupted && !t.terminal
  }

  /** The twenty rounds up to and including n all ended in a retryable error. */
  ghost predicate ErrorsFill(env: nat -> Round, n: nat) {
    n + 1 >= MaxTickErrors && forall j: nat :: n + 1 - MaxTickErrors <= j <= n ==> Retryable(env(j).tick)
  }

  /** The loop ends in round n, if it gets there. */
  ghost predicate Ends(env: nat -> Round, n: nat) {
    var r := env(n);
    || r.interrupted || r.expired || r.tick.Scored?
    || (r.tick.TickError? && !Retryable(r.tick))
    || (r.tick.Undecided? && r.drain.DrainError?)
    || ErrorsFill(env, n)
  }

  /** Out of time: the driver's last chance, else the error given. */
  function LastChance(r: Round, otherwise: Outcome): (o: Outcome)
    ensures o == otherwise || (o.Banked? && o.verdict.timedOut && o.verdict.devScored &&
              r.lastTick == Scored(o.verdict))
  {
    match BankableTimeoutVerdict(r.lastTick)
    case Some(v) => Banked(v)
    case None => otherwise
  }

  /** What the loop returns from a round in which it ends. A banked verdict is
      always a measured timeout, and a context seen expired yields nothing but a
      banked verdict or an error. But a timeout verdict nobody measured is not
      refused everywhere: it is returned exactly when the round's own tick, on a
      context not yet expired, is what produced it. */
  function OutcomeOf(r: Round): (o: Outcome)
    requires r.interrupted || r.expired || !r.tick.Undecided? || r.drain.DrainError?
    ensures o.Banked? ==> o.verdict.timedOut && o.verdict.devScored
    ensures !r.interrupted && r.expired ==> o.TimedOut? || o.Banked?
    ensures !r.interrupted && !r.expired && r.tick.Undecided? && r.expiredAfterDrain ==> !o.Converged?
    ensures (o.Converged? || o.Banked?) && o.verdict.timedOut && !o.verdict.devScored <==>
            !r.interrupted && !r.expired && r.tick.Scored? && r.tick.verdict.timedOut && !r.tick.verdict.devScored
  {
    if r.interrupted then StoppedByOperator
    else if r.expired then LastChance(r, TimedOut)
    else match r.tick
      case Scored(v) => Converged(v)
      case TickError(interrupted, terminal, message) =>
        if interrupted then StoppedByOperator
        else if terminal then TerminalError(message)
        else GaveUp(message)
      case Undecided =>
        if r.drain.interrupted then StoppedByOperator
        else if r.expiredAfterDrain then LastChance(r, DrainFailed(r.drain.message))
        else DrainFailed(r.drain.message)
  }

  /** Such a round: the tick itself, on a live context, returns a timeout verdict
      that nobody measured. */
  lemma UnmeasuredTimeoutIsReturned()
    ensures var v := Verdict(true, false, "");
            OutcomeOf(Round(false, false, Scored(v), Drained(false), false, Undecided)) == Converged(v)
  {
  }

  /** The length of the run of retryable tick errors that ends just before
      round n. */
  ghost function ErrorRun(env: nat -> Round, n: nat): nat {
    if n == 0 || !Retryable(env(n - 1).tick) then 0 else ErrorRun(env, n - 1) + 1
  }

  lemma {:induction false} ErrorRunIsMaximal(env: nat -> Round, n: nat, k: nat)
    ensures ErrorRun(env, n) >= k <==> n >= k && forall j: nat :: n - k <= j < n ==> Retryable(env(j).tick)
  {
    if k > 0 && n > 0 {
      ErrorRunIsMaximal(env, n - 1, k - 1);
      if n >= k && Retryable(env(n - 1).tick) && ErrorRun(env, n - 1) >= k - 1 {
        forall j: nat | n - k <= j < n ensures Retryable(env(j).tick) {
          if j < n - 1 { assert n - 1 - (k - 1) <= j < n - 1; }
        }
      }
    }
  }

  /** The loop got far enough in the round to update its error counter. */
  predicate Counted(r: Round) {
    !r.interrupted && !r.expired && (r.tick.TickError? ==> Retryable(r.tick))
  }

  /** A round after which the loop waits out the poll interval. */
  predicate Waits(r: Round) {
    r.tick.TickError? || (r.tick.Undecided? && r.drain == Drained(false))
  }

  ghost function WaitsBefore(env: nat -> Round, n: nat): nat {
    if n == 0 then 0 else WaitsBefore(env, n - 1) + (if Waits(env(n - 1)) then 1 else 0)
  }

  /** The loop finds the context expired in round r: at its top, or when the drain
      has just failed. */
  predicate ExpirySeen(r: Round) {
    !r.interrupted &&
    (r.expired || (r.tick.Undecided? && r.drain.DrainError? && !r.drain.interrupted && r.expiredAfterDrain))
  }

  /** The round begins uninterrupted on a context not yet expired. */
  predicate Live(r: Round) {
    !r.interrupted && !r.expired
  }

  /** The operator's interrupt is what the loop meets first in round r: at its top,
      in the tick, or in the drain. */
  predicate InterruptSeen(r: Round) {
    || r.interrupted
    || (Live(r) && r.tick.TickError? && r.tick.interrupted)
    || (Live(r) && r.tick.Undecided? && r.drain.DrainError? && r.drain.interrupted)
  }

  predicate Measured(t: Tick) {
    t.Scored? && t.verdict.timedOut && t.verdict.devScored
  }

  /** The loop. deadline is a round by which the context has expired. */
  method DriveLocalRun(env: nat -> Round, ghost deadline: nat)
    returns (out: Outcome, rounds: nat, tickErrors: nat, waits: nat)
    requires env(deadline).expired
    ensures rounds <= deadline
    ensures Ends(env, rounds) && forall j: nat :: j < rounds ==> !Ends(env, j)
    ensures out == OutcomeOf(env(rounds))
    ensures out.Banked? <==> ExpirySeen(env(rounds)) && Measured(env(rounds).lastTick)
    ensures out.Banked? ==> env(rounds).lastTick == Scored(out.verdict)
    ensures ExpirySeen(env(rounds)) && !out.Banked? ==> out.TimedOut? || out.DrainFailed?
    ensures out.Converged? <==> Live(env(rounds)) && env(rounds).tick.Scored?
    ensures out.Converged? ==> out.verdict == env(rounds).tick.verdict
    ensures out.StoppedByOperator? <==> InterruptSeen(env(rounds))
    ensures out.TimedOut? <==>
              !env(rounds).interrupted && env(rounds).expired && !Measured(env(rounds).lastTick)
    ensures out.TerminalError? <==>
              Live(env(rounds)) && env(rounds).tick.TickError?
              && !env(rounds).tick.interrupted && env(rounds).tick.terminal
    ensures out.TerminalError? || out.GaveUp? ==> out.message == env(rounds).tick.message
    ensures out.DrainFailed? <==>
              Live(env(rounds)) && env(rounds).tick.Undecided? && env(rounds).drain.DrainError?
              && !env(rounds).drain.interrupted
              && !(env(rounds).expiredAfterDrain && Measured(env(rounds).lastTick))
    ensures out.DrainFailed? ==> out.message == env(rounds).drain.message
    ensures out.GaveUp? ==>
              tickErrors == 20 <= rounds + 1 && Live(env(rounds)) &&
              forall j: nat :: rounds - 20 < j <= rounds ==>
                env(j).tick.TickError? && !env(j).tick.interrupted && !env(j).tick.terminal
    ensures out.GaveUp? <==> Live(env(rounds)) && ErrorsFill(env, rounds)
    ensures out.GaveUp? <==> tickErrors == MaxTickErrors
    ensures tickErrors == ErrorRun(env, if Counted(env(rounds)) then rounds + 1 else rounds)
    ensures waits == WaitsBefore(env, rounds)
    ensures forall j: nat :: j < rounds && env(j).tick.Undecided? ==> env(j).drain.Drained?
  {
    var consecutive := 0;
    rounds, waits := 0, 0;
    while true
      invariant rounds <= deadline
      invariant forall j: nat :: j < rounds ==> !Ends(env, j)
      invariant consecutive == ErrorRun(env, rounds) < MaxTickErrors
      invariant waits == WaitsBefore(env, rounds)
      invariant forall j: nat :: j < rounds && env(j).tick.Undecided? ==> env(j).drain.Drained?
      decreases deadline - rounds
    {
      var r := env(rounds);
      tickErrors := consecutive;
      if r.interrupted {
        return StoppedByOperator, rounds, tickErrors, waits;
      }
      if r.expired {
        var banked := BankableTimeoutVerdict(r.lastTick);
        return if banked.Some? then Banked(banked.value) else TimedOut, rounds, tickErrors, waits;
      }
      if r.tick.TickError? && r.tick.interrupted {
        return StoppedByOperator, rounds, tickErrors, waits;
      }
      ErrorRunIsMaximal(env, rounds + 1, MaxTickErrors);
      if r.tick.TickError? {
        if r.tick.terminal {
          return TerminalError(r.tick.message), rounds, tickErrors, waits;
        }
        consecutive := consecutive + 1;
        tickErrors := consecutive;
        if consecutive >= MaxTickErrors {
          return GaveUp(r.tick.message), rounds, tickErrors, waits;
        }
        waits := waits + 1;
        rounds := rounds + 1;
        continue;
      }
      consecutive := 0;
      tickErrors := 0;
      if r.tick.Scored? {
        return Converged(r.tick.verdict), rounds, tickErrors, waits;
      }
      if r.drain.DrainError? {
        if r.drain.interrupted {
          return StoppedByOperator, rounds, tickErrors, waits;
        }
        if r.expiredAfterDrain {
          var banked := BankableTimeoutVerdict(r.lastTick);
          if banked.Some? {
            return Banked(banked.value), rounds, tickErrors, waits;
          }
        }
        return DrainFailed(r.drain.message), rounds, tickErrors, waits;
      }
      if !r.drain.ran {
        waits := waits + 1;
      }
      rounds := rounds + 1;
    }
  }

  /** The loop's tolerance is exactly nineteen retryable errors in a row: with a
      live context and no interrupt, the first round it gives up in is the first
      that completes a run of twenty. */
  lemma {:induction false} GivesUpAtTwenty(env: nat -> Round, n: nat)
    ensures ErrorsFill(env, n) <==> ErrorRun(env, n + 1) >= 20
    ensures ErrorRun(env, n + 1) > 20 ==> n > 0 && ErrorsFill(env, n - 1)
  {
    ErrorRunIsMaximal(env, n + 1, MaxTickErrors);
    if ErrorRun(env, n + 1) > MaxTickErrors {
      ErrorRunIsMaximal(env, n, MaxTickErrors);
    }
  }

  /** The rounds slept after are those whose tick is retried and those whose drain
      ran nothing: a round that ran a task is followed at once by the next. */
  lemma {:induction false} WaitsAreCounted(env: nat -> Round, n: nat)
    ensures WaitsBefore(env, n) <= n
    ensures WaitsBefore(env, n) == 0 <==>
            forall j: nat :: j < n ==>
              env(j).tick.Scored? || (env(j).tick.Undecided? && env(j).drain != Drained(false))
  {
    if n > 0 {
      WaitsAreCounted(env, n - 1);
    }
  }
}
