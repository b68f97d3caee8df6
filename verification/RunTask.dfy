/** runOneTask in the source's own form: one task taken through its role, its
    findings filed one at a time, and the task completed, on a queue that is
    updated in place. */
module RunTask {
  import opened Common
  import opened SeatPolicy
  import opened WorkerPool

  class TaskQueue {
    var filed: seq<Finding>
    var done: map<nat, string>

    constructor ()
      ensures filed == [] && done == map[]
    {
      filed, done := [], map[];
    }

    /** refusedAt is the finding the queue fails to store, None if it stores
        them all; completionFails says the completion itself fails. */
    method RunOneTask(mission: nat, task: nat, role: string, hasBackend: bool, call: Call,
                      refusedAt: Option<nat>, completionFails: bool) returns (err: Option<Failure>)
      modifies this
      ensures err.None? <==>
                hasBackend && PlanFor(role, call).Complete? && !completionFails
                && (refusedAt.Some? ==> refusedAt.value >= |PlanFor(role, call).findings|)
      ensures err.None? ==>
                && done == old(done)[task := PlanFor(role, call).result]
                && filed == old(filed) + StampAll(PlanFor(role, call).findings, mission, task, role)
      ensures !hasBackend ==> err == Some(NoBackend(role))
      ensures hasBackend && PlanFor(role, call).Abort? ==> err == Some(PlanFor(role, call).failure)
      ensures err == Some(CompletionFailed(role)) ==>
                filed == old(filed) + StampAll(PlanFor(role, call).findings, mission, task, role)
      ensures err.Some? ==> done == old(done)
      ensures err.Some? && (!hasBackend || PlanFor(role, call).Abort?) ==> filed == old(filed)
      ensures err == Some(RoleFailed(role)) ==> call.Errored? && !Contained(role)
      ensures err == Some(FindingRejected(role)) ==>
                hasBackend && PlanFor(role, call).Complete? && refusedAt.Some?
                && refusedAt.value < |PlanFor(role, call).findings|
                && filed == old(filed) + StampAll(PlanFor(role, call).findings[..refusedAt.value], mission, task, role)
    {
      if !hasBackend {
        return Some(NoBackend(role));
      }
      var result, findings;
      match PlanFor(role, call) {
        case Abort(failure) => return Some(failure);
        case Complete(r, fs) => result, findings := r, fs;
      }
      var i := 0;
      while i < |findings|
        invariant 0 <= i <= |findings|
        invariant done == old(done)
        invariant filed == old(filed) + StampAll(findings[..i], mission, task, role)
        invariant refusedAt.Some? ==> i <= refusedAt.value
      {
        if refusedAt == Some(i) {
          return Some(FindingRejected(role));
        }
        StampAllAppend(findings[..i], findings[i], mission, task, role);
        assert findings[..i + 1] == findings[..i] + [findings[i]];
        filed := filed + [Stamp(findings[i], mission, task, role)];
        i := i + 1;
      }
      assert findings[..i] == findings;
      if completionFails {
        return Some(CompletionFailed(role));
      }
      done := done[task := result];
      return None;
    }
  }

  lemma {:induction false} StampAllAppend(fs: seq<Finding>, f: Finding, mission: nat, task: nat, role: string)
    ensures StampAll(fs + [f], mission, task, role) ==
            StampAll(fs, mission, task, role) + [Stamp(f, mission, task, role)]
  {
    if fs != [] {
      assert (fs + [f])[1..] == fs[1..] + [f];
      StampAllAppend(fs[1..], f, mission, task, role);
    }
  }

  /** The steps one worker takes to file what is left of a task and finish it. */
  function FinishMoves(w: nat, todo: nat): seq<Move> {
    if todo == 0 then [Do(w, Finish)] else [Do(w, FileOne)] + FinishMoves(w, todo - 1)
  }

  /** The pool's steps do to the queue what runOneTask does: a worker left to
      file and finish its task undisturbed adds the stamped findings, in order,
      and then the result. */
  lemma {:induction false} PoolStepsAgree(s: Pool, w: nat)
    requires w < |s.workers| && s.workers[w].Filing? && s.workers[w].task in s.job.roles
    requires s.job.mission != 0 && s.job.roles[s.workers[w].task] != ""
    ensures var Filing(t, result, todo) := s.workers[w];
            var moves := FinishMoves(w, |todo|);
            && AllLegal(s, moves)
            && var q := Play(s, moves).queue;
               q.filed == s.queue.filed + StampAll(todo, s.job.mission, t, s.job.roles[t])
               && q.done == s.queue.done[t := result]
    decreases |s.workers[w].todo|
  {
    var Filing(t, result, todo) := s.workers[w];
    var moves := FinishMoves(w, |todo|);
    if todo != [] {
      var s' := Step(s, Do(w, FileOne));
      PoolStepsAgree(s', w);
      assert moves[1..] == FinishMoves(w, |todo| - 1);
      assert s.queue.filed + StampAll(todo, s.job.mission, t, s.job.roles[t])
          == s'.queue.filed + StampAll(todo[1..], s.job.mission, t, s.job.roles[t]);
    } else {
      assert moves[1..] == [];
      assert s.queue.filed + [] == s.queue.filed;
    }
  }
}
