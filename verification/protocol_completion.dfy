/** What a report of completion is worth when runs are cancelled and restarted. */
module ProtocolCompletion {
  import opened Common
  import opened Protocol
  import opened ProtocolLedger
  import opened ProtocolInvariant
  import opened ProtocolSafety
  import opened ProtocolTheorems

  // ---------------------------------------------------------------- the exact condition

  ghost predicate NoPieceQueued(run: Run) {
    && (forall k :: 0 <= k < |run.jobs| ==> run.jobs[k].None?)
    && (run.dispatcher.Sending? ==> run.dispatcher.job.None?)
  }

  ghost predicate HoldsNothing(run: Run) {
    NoPieceQueued(run) && forall w, i: nat :: 0 <= w < |run.workers| ==> !Holds(run.workers[w], i)
  }

  /** No channel, dispatcher or worker of any run has a piece. */
  ghost predicate NothingLeft(s: State) {
    forall r :: 0 <= r < |s.runs| ==> HoldsNothing(s.runs[r])
  }

  lemma {:induction false} NilJobsBearNothing(jobs: seq<Option<nat>>, i: nat)
    requires forall k :: 0 <= k < |jobs| ==> jobs[k].None?
    ensures JobsBear(jobs, Held(i)) == 0
  {
    if jobs != [] {
      NilJobsBearNothing(jobs[1..], i);
    }
  }

  lemma EmptyRunBearsNothing(run: Run, i: nat)
    requires HoldsNothing(run)
    ensures RunBears(run, Held(i)) == 0
  {
    forall w | 0 <= w < |run.workers|
      ensures WorkerBears(run.workers[w], Held(i)) == 0
    {
      assert !Holds(run.workers[w], i);
    }
    WorkersBearNone(run.workers, Held(i));
    NilJobsBearNothing(run.jobs, i);
  }

  lemma {:induction false} RunsBearNone(runs: seq<Run>, t: Token)
    requires forall r :: 0 <= r < |runs| ==> RunBears(runs[r], t) == 0
    ensures RunsBear(runs, t) == 0
  {
    if runs != [] {
      RunsBearNone(runs[1..], t);
    }
  }

  /** A run that has something left has some piece. */
  lemma SomePieceLeft(run: Run) returns (i: nat)
    requires !HoldsNothing(run)
    ensures RunBears(run, Held(i)) > 0
  {
    if k: nat :| k < |run.jobs| && run.jobs[k].Some? {
      i := run.jobs[k].value;
      JobsBearOne(run.jobs, k, Held(i));
    } else if run.dispatcher.Sending? && run.dispatcher.job.Some? {
      i := run.dispatcher.job.value;
    } else {
      var w: nat, j: nat :| w < |run.workers| && Holds(run.workers[w], j);
      i := j;
      WorkersBearOne(run.workers, w, Held(i));
    }
  }

  lemma HandedIffNothingLeft(c: Config, s: State)
    requires LedgerOK(c, s)
    ensures AllHanded(c, s) <==> s.totalSelected >= c.nPiece && NothingLeft(s)
  {
    if s.totalSelected >= c.nPiece && NothingLeft(s) {
      forall i: nat | i < c.nPiece
        ensures multiset(s.handed)[i] == 1
      {
        forall r | 0 <= r < |s.runs|
          ensures RunBears(s.runs[r], Held(i)) == 0
        {
          EmptyRunBearsNothing(s.runs[r], i);
        }
        RunsBearNone(s.runs, Held(i));
      }
    } else if s.totalSelected >= c.nPiece {
      var r: nat :| r < |s.runs| && !HoldsNothing(s.runs[r]);
      var i := SomePieceLeft(s.runs[r]);
      HeldIsNotHanded(c, s, r, i);
    } else {
      HandedIsSelected(c, s);
    }
  }

  lemma HandedIsSelected(c: Config, s: State)
    requires LedgerOK(c, s)
    ensures AllHanded(c, s) ==> s.totalSelected >= c.nPiece
  {
    if AllHanded(c, s) && c.nPiece > 0 {
      assert multiset(s.handed)[c.nPiece - 1] == 1;
    }
  }

  lemma HeldIsNotHanded(c: Config, s: State, r: nat, i: nat)
    requires LedgerOK(c, s) && HasRun(s, r) && RunBears(s.runs[r], Held(i)) > 0
    ensures i !in s.handed && i < c.nPiece && !AllHanded(c, s)
  {
    RunsBearOne(s.runs, r, Held(i));
    assert multiset(s.handed)[i] == 0 && i < s.lastSelected;
  }

  /** Over any restarts and cancellations: every piece was handed over if and only if all were selected and no
      channel, dispatcher or worker of any run has one left. */
  lemma AllHandedIff(c: Config, steps: seq<Step>)
    requires Admissible(c, steps)
    ensures var s := Execute(c, steps); AllHanded(c, s) <==> s.totalSelected >= c.nPiece && NothingLeft(s)
  {
    InvAlways(c, steps);
    HandedIffNothingLeft(c, Execute(c, steps));
  }

  /** Run r has reported completion. */
  predicate PostedBy(s: State, r: nat) {
    HasRun(s, r) && s.runs[r].waiter == Over(true)
  }

  /** A report of completion, from whichever run, is right if and only if nothing is left anywhere. */
  lemma PostedIsRightIff(c: Config, steps: seq<Step>, r: nat)
    requires Admissible(c, steps) && PostedBy(Execute(c, steps), r)
    ensures AllHanded(c, Execute(c, steps)) <==> NothingLeft(Execute(c, steps))
  {
    InvAlways(c, steps);
    AllHandedIff(c, steps);
  }

  // ---------------------------------------------------------------- a piece left behind

  /** All workers of run r have left, and piece i is still in its job channel. */
  ghost predicate Abandoned(s: State, r: nat, i: nat) {
    && HasRun(s, r)
    && (forall w :: 0 <= w < |s.runs[r].workers| ==> s.runs[r].workers[w].Gone?)
    && exists k :: 0 <= k < |s.runs[r].jobs| && s.runs[r].jobs[k] == Some(i)
  }

  lemma WorkerStepKeepsAbandoned(c: Config, s: State, k: nat, w: nat, act: WorkerAct, r: nat, i: nat)
    requires HasWorker(s, k, w) && WorkerEnabled(c, s, k, w, act) && Abandoned(s, r, i)
    ensures Abandoned(WorkerApply(c, s, k, w, act), r, i)
  {
    assert k != r;
    hide WorkerApply, OwnRunAfter, WorkerEnabled, SelectorThen;
    WorkerStepShape(c, s, k, w, act, r);
  }

  lemma SelectorStepKeepsAbandoned(c: Config, s: State, k: nat, act: SelectorAct, r: nat, i: nat)
    requires HasRun(s, k) && SelectorEnabled(c, s, k, act) && Abandoned(s, r, i)
    ensures Abandoned(SelectorApply(c, s, k, act), r, i)
  {
    assert act.Respond? ==> s.runs[k].selector.request.run != r;
    SelectorStepShape(c, s, k, act, r);
    hide SelectorApply, SelectorAfter, SelectorEnabled;
  }

  lemma StepKeepsAbandoned(c: Config, s: State, step: Step, r: nat, i: nat)
    requires Enabled(c, s, step) && Abandoned(s, r, i)
    ensures Abandoned(Apply(c, s, step), r, i)
  {
    match step
    case Start => assert Apply(c, s, step).runs[r] == s.runs[r];
    case ByRun(k, act) => assert s.runs[r].jobs <= RunApply(c, s, k, act).runs[r].jobs;
    case ByWorker(k, w, act) => WorkerStepKeepsAbandoned(c, s, k, w, act, r, i);
    case BySelector(k, act) => SelectorStepKeepsAbandoned(c, s, k, act, r, i);
  }

  lemma AbandonedIsNotHanded(c: Config, s: State, r: nat, i: nat)
    requires LedgerOK(c, s) && Abandoned(s, r, i)
    ensures i !in s.handed && i < c.nPiece && !AllHanded(c, s)
  {
    var k: nat :| k < |s.runs[r].jobs| && s.runs[r].jobs[k] == Some(i);
    JobsBearOne(s.runs[r].jobs, k, Held(i));
    HeldIsNotHanded(c, s, r, i);
  }

  /** A piece left in the channel of a run without workers is lost: whatever is started later, it is never
      handed over, so no later report of completion is right. */
  lemma {:induction false} AbandonedIsLost(c: Config, steps: seq<Step>, longer: seq<Step>, r: nat, i: nat)
    requires Admissible(c, steps) && Abandoned(Execute(c, steps), r, i) && steps <= longer && Admissible(c, longer)
    ensures Abandoned(Execute(c, longer), r, i)
    ensures i !in Execute(c, longer).handed && i < c.nPiece && !AllHanded(c, Execute(c, longer))
    decreases |longer|
  {
    if |longer| > |steps| {
      var before := longer[..|longer| - 1];
      assert steps == before[..|steps|];
      AbandonedIsLost(c, steps, before, r, i);
      StepKeepsAbandoned(c, Execute(c, before), longer[|longer| - 1], r, i);
    } else {
      assert longer == steps;
    }
    InvAlways(c, longer);
    AbandonedIsNotHanded(c, Execute(c, longer), r, i);
  }
}
