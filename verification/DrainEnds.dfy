/** Every drain of the worker pool ends, however many findings its calls return. */
module DrainEnds {
  import opened WorkerPool

  function Total(f: Phase -> nat, ws: seq<Phase>): nat {
    if ws == [] then 0 else f(ws[0]) + Total(f, ws[1..])
  }

  lemma {:induction false} TotalUpdate(f: Phase -> nat, ws: seq<Phase>, w: nat, p: Phase)
    requires w < |ws|
    ensures Total(f, ws[w := p]) + f(ws[w]) == Total(f, ws) + f(p)
  {
    if w == 0 {
      assert ws[w := p][1..] == ws[1..];
    } else {
      assert ws[w := p][1..] == ws[1..][w - 1 := p];
      TotalUpdate(f, ws[1..], w - 1, p);
    }
  }

  /** Claimed, with its role not yet run: how many findings it will have to
      file is still unknown. */
  function Unrun(p: Phase): nat {
    if p.Claimed? || p.Calling? then 1 else 0
  }

  function Remaining(p: Phase): nat {
    match p
    case Exited => 0
    case Cancelling => 1
    case Failing(_) => 2
    case Claiming => 3
    case AtTop => 4
    case Filing(_, _, todo) => 5 + |todo|
    case Calling(_) => 6
    case Claimed(_) => 7
  }

  /** Calls still to be made, weighted so that a claim uses some up. */
  function CallsLeft(s: Pool): nat {
    2 * |s.queue.ready| + Total(Unrun, s.workers)
  }

  function StepsLeft(s: Pool): nat {
    Total(Remaining, s.workers) + (if s.shared.outerDone then 0 else 1)
  }

  lemma StepDescends(s: Pool, m: Move)
    requires Legal(s, m)
    ensures CallsLeft(Step(s, m)) < CallsLeft(s)
            || (CallsLeft(Step(s, m)) == CallsLeft(s) && StepsLeft(Step(s, m)) < StepsLeft(s))
  {
    if m.Do? {
      var p := NextPhase(s, m.worker, m.act);
      TotalUpdate(Unrun, s.workers, m.worker, p);
      TotalUpdate(Remaining, s.workers, m.worker, p);
      if m.act.ClaimTask? {
        assert s.queue.ready == (s.queue.ready - {m.act.task}) + {m.act.task};
      }
    }
  }

  ghost predicate OneStep(s: Pool, s': Pool) {
    exists m :: Legal(s, m) && s' == Step(s, m)
  }

  lemma Descend(run: nat -> Pool, i: nat)
    requires forall k: nat :: OneStep(run(k), run(k + 1))
    ensures false
    decreases CallsLeft(run(i)), StepsLeft(run(i))
  {
    assert OneStep(run(i), run(i + 1));
    var m :| Legal(run(i), m) && run(i + 1) == Step(run(i), m);
    StepDescends(run(i), m);
    Descend(run, i + 1);
  }

  /** No interleaving goes on for ever, however many findings the calls return. */
  lemma NoInfiniteDrain(run: nat -> Pool)
    ensures exists k: nat :: !OneStep(run(k), run(k + 1))
  {
    if forall k: nat :: OneStep(run(k), run(k + 1)) {
      Descend(run, 0);
    }
  }
}
