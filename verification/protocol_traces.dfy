/** Runs of the protocol in which completion is reported wrongly, written out step by step. */
module ProtocolTraces {
  import opened Common
  import opened Protocol
  import opened ProtocolInvariant
  import opened ProtocolCompletion
  import opened ProtocolTheorems

  // ---------------------------------------------------------------- steps of the youngest run

  /** The state in which `older` are the runs before the youngest one, nobody has asked for a peer, and nothing
      was handed over. */
  function At(older: seq<Run>, selected: nat, run: Run): State {
    State(selected, selected, older + [run], map[], None, [])
  }

  lemma Youngest(older: seq<Run>, selected: nat, run: Run, next: Run)
    ensures HasRun(At(older, selected, run), |older|) && At(older, selected, run).runs[|older|] == run
    ensures SetRun(At(older, selected, run), |older|, next) == At(older, selected, next)
  {
    assert (older + [run])[|older| := next] == older + [next];
  }

  lemma OnlyRun(selected: nat, run: Run)
    ensures At([], selected, run) == State(selected, selected, [run], map[], None, [])
  {
    assert [] + [run] == [run];
  }

  lemma Extend(c: Config, steps: seq<Step>, step: Step) returns (longer: seq<Step>)
    requires Admissible(c, steps) && Enabled(c, Execute(c, steps), step)
    ensures Admissible(c, longer) && Execute(c, longer) == Apply(c, Execute(c, steps), step) && steps <= longer
  {
    longer := steps + [step];
    assert longer[..|longer| - 1] == steps;
  }

  /** An act of the youngest run, seen from that run alone. */
  predicate CanDo(c: Config, run: Run, act: RunAct) {
    match act
    case Cancel => true
    case Select => run.dispatcher.Selecting?
    case Send => run.dispatcher.Sending? && |run.jobs| < c.nWorker
    case PassWait => run.waiter.AtWait? && run.waitCount == 0
    case StopChildren => run.waiter.Passed?
    case StopMain => run.waiter.ChildrenStopped?
    case Post => run.waiter.MainStopped?
    case _ => false
  }

  function Did(c: Config, selected: nat, run: Run, act: RunAct): Run
    requires CanDo(c, run, act)
  {
    match act
    case Cancel => run.(cancelled := true)
    case Select => AfterSelect(run, SelectPiece(selected, selected, c.nPiece))
    case Send => run.(jobs := run.jobs + [run.dispatcher.job], dispatcher := Ready)
    case PassWait => run.(waiter := Passed(run.waiter.completed))
    case StopChildren => run.(waiter := ChildrenStopped(run.waiter.completed))
    case StopMain => run.(waiter := MainStopped(run.waiter.completed))
    case Post => run.(waiter := Over(run.waiter.completed))
  }

  function SelectedThen(c: Config, selected: nat, act: RunAct): nat {
    if act.Select? then SelectPiece(selected, selected, c.nPiece).total else selected
  }

  lemma RunDoes(c: Config, older: seq<Run>, selected: nat, run: Run, act: RunAct)
    requires CanDo(c, run, act)
    ensures var s := At(older, selected, run);
            HasRun(s, |older|) && RunEnabled(c, s, |older|, act)
            && RunApply(c, s, |older|, act) == At(older, SelectedThen(c, selected, act), Did(c, selected, run, act))
  {
    Youngest(older, selected, run, Did(c, selected, run, act));
  }

  lemma ByRunTo(c: Config, steps: seq<Step>, older: seq<Run>, selected: nat, run: Run, act: RunAct, next: Run)
    returns (longer: seq<Step>)
    requires Admissible(c, steps) && Execute(c, steps) == At(older, selected, run)
    requires CanDo(c, run, act) && Did(c, selected, run, act) == next
    ensures Admissible(c, longer) && Execute(c, longer) == At(older, SelectedThen(c, selected, act), next)
  {
    RunDoes(c, older, selected, run, act);
    hide CanDo, Did, RunEnabled, RunApply, Execute, Admissible, SelectedThen;
    longer := Extend(c, steps, ByRun(|older|, act));
  }

  /** The acts of a worker that asks for no peer, seen from its run alone. */
  predicate WorkerCan(run: Run, w: nat, act: WorkerAct) {
    && w < |run.workers|
    && match act
       case Register => run.workers[w].Unstarted?
       case Signal => run.workers[w].Signalling? && run.dispatcher.Ready?
       case Take => run.workers[w].Waiting? && run.jobs != []
       case Quit => run.workers[w].Waiting? && run.cancelled
       case Retire => run.workers[w].Retiring?
       case _ => false
  }

  function WorkerThen(run: Run, w: nat, act: WorkerAct): Worker
    requires WorkerCan(run, w, act)
  {
    match act
    case Register => Signalling
    case Signal => Waiting
    case Take => (match run.jobs[0] case None => Retiring(false) case Some(i) => Requesting(i))
    case Quit => Retiring(true)
    case Retire => Gone(run.workers[w].cancelled)
  }

  function WorkerDid(run: Run, w: nat, act: WorkerAct): Run
    requires WorkerCan(run, w, act)
  {
    var next := run.(workers := run.workers[w := WorkerThen(run, w, act)]);
    match act
    case Register => next.(waitCount := run.waitCount + 1)
    case Signal => next.(dispatcher := Selecting)
    case Take => next.(jobs := run.jobs[1..])
    case Retire => next.(waitCount := run.waitCount - 1)
    case _ => next
  }

  lemma WorkerDoes(c: Config, older: seq<Run>, selected: nat, run: Run, w: nat, act: WorkerAct)
    requires WorkerCan(run, w, act)
    ensures var s := At(older, selected, run);
            HasWorker(s, |older|, w) && WorkerEnabled(c, s, |older|, w, act)
            && WorkerApply(c, s, |older|, w, act) == At(older, selected, WorkerDid(run, w, act))
  {
    var s := At(older, selected, run);
    Youngest(older, selected, run, WorkerDid(run, w, act));
    assert OwnRunAfter(c, s, |older|, w, act) == WorkerDid(run, w, act);
  }

  /** `next` has the workers and jobs that the act leaves, one by one. */
  predicate WorkerLeads(run: Run, w: nat, act: WorkerAct, next: Run) {
    && WorkerCan(run, w, act)
    && WorkerDid(run, w, act).(workers := next.workers, jobs := next.jobs) == next
    && (if act.Take? then [run.jobs[0]] + next.jobs == run.jobs else next.jobs == run.jobs)
    && |next.workers| == |run.workers|
    && forall v :: 0 <= v < |run.workers| ==>
         next.workers[v] == if v == w then WorkerThen(run, w, act) else run.workers[v]
  }

  lemma LeadsIsDid(run: Run, w: nat, act: WorkerAct, next: Run)
    requires WorkerLeads(run, w, act, next)
    ensures WorkerDid(run, w, act) == next
  {
    assert next.workers == run.workers[w := WorkerThen(run, w, act)];
    assert act.Take? ==> next.jobs == run.jobs[1..];
  }

  lemma ByWorkerTo(c: Config, steps: seq<Step>, older: seq<Run>, selected: nat, run: Run, w: nat, act: WorkerAct,
                   next: Run)
    returns (longer: seq<Step>)
    requires Admissible(c, steps) && Execute(c, steps) == At(older, selected, run)
    requires WorkerLeads(run, w, act, next)
    ensures Admissible(c, longer) && Execute(c, longer) == At(older, selected, next)
  {
    LeadsIsDid(run, w, act, next);
    WorkerDoes(c, older, selected, run, w, act);
    hide WorkerLeads, WorkerCan, WorkerDid, WorkerEnabled, WorkerApply, Execute, Admissible;
    longer := Extend(c, steps, ByWorker(|older|, w, act));
  }

  /** Before the first step. */
  lemma NothingYet(c: Config)
    requires c.peers == {}
    ensures Admissible(c, []) && Execute(c, []) == State(0, 0, [], map[], None, [])
  {}

  // ---------------------------------------------------------------- two workers leave a piece behind

  /** One piece and two workers, or more that are not scheduled yet; no peer is ever asked for. */
  function Tiny(more: nat): Config {
    Config(1, 2 + more, {}, {})
  }

  function Unscheduled(more: nat): seq<Worker> {
    seq(more, _ => Unstarted)
  }

  function Two(cancelled: bool, jobs: seq<Option<nat>>, a: Worker, b: Worker, more: nat, waitCount: int,
               d: Dispatcher, waiter: Waiter): Run {
    Run(cancelled, false, jobs, [a, b] + Unscheduled(more), waitCount, d, waiter, Idle, Free)
  }

  lemma StartedAt(c: Config, steps: seq<Step>, older: seq<Run>, selected: nat) returns (longer: seq<Step>)
    requires Admissible(c, steps) && Execute(c, steps) == State(selected, selected, older, map[], None, [])
    ensures Admissible(c, longer) && Execute(c, longer) == At(older, selected, FreshRun(c)) && steps <= longer
  {
    longer := Extend(c, steps, Start);
  }

  lemma FirstWorkerWaits(more: nat) returns (steps: seq<Step>)
    ensures Admissible(Tiny(more), steps)
    ensures Execute(Tiny(more), steps)
            == At([], 1, Two(false, [Some(0)], Waiting, Unstarted, more, 1, Ready, Absent))
  {
    hide Admissible, Execute, At;
    var c := Tiny(more);
    var s0 := Two(false, [], Unstarted, Unstarted, more, 0, Ready, Absent);
    var s1 := Two(false, [], Signalling, Unstarted, more, 1, Ready, Absent);
    var s2 := Two(false, [], Waiting, Unstarted, more, 1, Selecting, Absent);
    var s3 := Two(false, [], Waiting, Unstarted, more, 1, Sending(Some(0)), Absent);
    var s4 := Two(false, [Some(0)], Waiting, Unstarted, more, 1, Ready, Absent);
    assert FreshRun(c).workers == s0.workers;
    NothingYet(c);
    steps := StartedAt(c, [], [], 0);
    steps := ByWorkerTo(c, steps, [], 0, s0, 0, Register, s1);
    steps := ByWorkerTo(c, steps, [], 0, s1, 0, Signal, s2);
    steps := ByRunTo(c, steps, [], 0, s2, Select, s3);
    steps := ByRunTo(c, steps, [], 1, s3, Send, s4);
  }

  lemma BothWorkersWait(more: nat) returns (steps: seq<Step>)
    ensures Admissible(Tiny(more), steps)
    ensures Execute(Tiny(more), steps)
            == At([], 1, Two(false, [Some(0), None], Waiting, Waiting, more, 2, Ready, AtWait(true)))
  {
    hide Admissible, Execute, At;
    var c := Tiny(more);
    var s0 := Two(false, [Some(0)], Waiting, Unstarted, more, 1, Ready, Absent);
    var s1 := Two(false, [Some(0)], Waiting, Signalling, more, 2, Ready, Absent);
    var s2 := Two(false, [Some(0)], Waiting, Waiting, more, 2, Selecting, Absent);
    var s3 := Two(false, [Some(0)], Waiting, Waiting, more, 2, Sending(None), AtWait(true));
    var s4 := Two(false, [Some(0), None], Waiting, Waiting, more, 2, Ready, AtWait(true));
    steps := FirstWorkerWaits(more);
    steps := ByWorkerTo(c, steps, [], 1, s0, 1, Register, s1);
    steps := ByWorkerTo(c, steps, [], 1, s1, 1, Signal, s2);
    steps := ByRunTo(c, steps, [], 1, s2, Select, s3);
    steps := ByRunTo(c, steps, [], 1, s3, Send, s4);
  }

  lemma BothWorkersQuit(more: nat) returns (steps: seq<Step>)
    ensures Admissible(Tiny(more), steps)
    ensures Execute(Tiny(more), steps)
            == At([], 1, Two(true, [Some(0), None], Retiring(true), Retiring(true), more, 2, Ready, AtWait(true)))
  {
    hide Admissible, Execute, At;
    var c, jobs := Tiny(more), [Some(0), None];
    var s0 := Two(false, jobs, Waiting, Waiting, more, 2, Ready, AtWait(true));
    var s1 := Two(true, jobs, Waiting, Waiting, more, 2, Ready, AtWait(true));
    var s2 := Two(true, jobs, Retiring(true), Waiting, more, 2, Ready, AtWait(true));
    var s3 := Two(true, jobs, Retiring(true), Retiring(true), more, 2, Ready, AtWait(true));
    steps := BothWorkersWait(more);
    steps := ByRunTo(c, steps, [], 1, s0, Cancel, s1);
    steps := ByWorkerTo(c, steps, [], 1, s1, 0, Quit, s2);
    steps := ByWorkerTo(c, steps, [], 1, s2, 1, Quit, s3);
  }

  lemma WaitPasses(more: nat) returns (steps: seq<Step>)
    ensures Admissible(Tiny(more), steps)
    ensures Execute(Tiny(more), steps)
            == At([], 1, Two(true, [Some(0), None], Gone(true), Gone(true), more, 0, Ready, Passed(true)))
  {
    hide Admissible, Execute, At;
    var c, jobs := Tiny(more), [Some(0), None];
    var s0 := Two(true, jobs, Retiring(true), Retiring(true), more, 2, Ready, AtWait(true));
    var s1 := Two(true, jobs, Gone(true), Retiring(true), more, 1, Ready, AtWait(true));
    var s2 := Two(true, jobs, Gone(true), Gone(true), more, 0, Ready, AtWait(true));
    var s3 := Two(true, jobs, Gone(true), Gone(true), more, 0, Ready, Passed(true));
    steps := BothWorkersQuit(more);
    steps := ByWorkerTo(c, steps, [], 1, s0, 0, Retire, s1);
    steps := ByWorkerTo(c, steps, [], 1, s1, 1, Retire, s2);
    steps := ByRunTo(c, steps, [], 1, s2, PassWait, s3);
  }

  /** From the end of the wait to the report, nothing else changes. */
  lemma Reports(c: Config, steps: seq<Step>, older: seq<Run>, selected: nat, run: Run) returns (longer: seq<Step>)
    requires Admissible(c, steps) && Execute(c, steps) == At(older, selected, run) && run.waiter == Passed(true)
    ensures Admissible(c, longer) && Execute(c, longer) == At(older, selected, run.(waiter := Over(true)))
  {
    hide Admissible, Execute, At;
    longer := ByRunTo(c, steps, older, selected, run, StopChildren, run.(waiter := ChildrenStopped(true)));
    longer := ByRunTo(c, longer, older, selected, run.(waiter := ChildrenStopped(true)), StopMain,
                      run.(waiter := MainStopped(true)));
    longer := ByRunTo(c, longer, older, selected, run.(waiter := MainStopped(true)), Post, run.(waiter := Over(true)));
  }

  /** The second worker's signal makes the dispatcher report completion; then the run is cancelled, both
      workers leave, and completion is posted with the piece still in the job channel. */
  lemma CancelledRunPostsCompletion(more: nat) returns (c: Config, steps: seq<Step>)
    ensures Admissible(c, steps) && PostedBy(Execute(c, steps), 0) && |Execute(c, steps).runs| == 1
    ensures c.nPiece == 1 && c.nWorker == 2 + more
    ensures Execute(c, steps).handed == [] && Execute(c, steps).runs[0].jobs == [Some(0), None]
  {
    c := Tiny(more);
    steps := WaitPasses(more);
    steps := Reports(c, steps, [], 1, Two(true, [Some(0), None], Gone(true), Gone(true), more, 0, Ready, Passed(true)));
  }

  // ---------------------------------------------------------------- a worker that comes late

  function Late(jobs: seq<Option<nat>>, x: Worker, waitCount: int, d: Dispatcher): Run {
    Run(true, false, jobs, [Gone(true), Gone(true), x], waitCount, d, Passed(true), Idle, Free)
  }

  lemma LateComes() returns (steps: seq<Step>)
    ensures Admissible(Tiny(1), steps)
    ensures Execute(Tiny(1), steps) == At([], 1, Late([Some(0), None], Waiting, 1, Sending(None)))
  {
    hide Admissible, Execute, At;
    var c, jobs := Tiny(1), [Some(0), None];
    var s0 := Late(jobs, Unstarted, 0, Ready);
    var s1 := Late(jobs, Signalling, 1, Ready);
    var s2 := Late(jobs, Waiting, 1, Selecting);
    var s3 := Late(jobs, Waiting, 1, Sending(None));
    steps := WaitPasses(1);
    assert [Gone(true), Gone(true)] + Unscheduled(1) == s0.workers;
    steps := ByWorkerTo(c, steps, [], 1, s0, 2, Register, s1);
    steps := ByWorkerTo(c, steps, [], 1, s1, 2, Signal, s2);
    steps := ByRunTo(c, steps, [], 1, s2, Select, s3);
  }

  lemma LateTakes() returns (steps: seq<Step>)
    ensures Admissible(Tiny(1), steps)
    ensures Execute(Tiny(1), steps) == At([], 1, Late([None, None], Requesting(0), 1, Ready))
  {
    hide Admissible, Execute, At;
    var c := Tiny(1);
    var s3 := Late([Some(0), None], Waiting, 1, Sending(None));
    var s4 := Late([Some(0), None, None], Waiting, 1, Ready);
    var s5 := Late([None, None], Requesting(0), 1, Ready);
    steps := LateComes();
    steps := ByRunTo(c, steps, [], 1, s3, Send, s4);
    assert [Some(0)] + s5.jobs == s4.jobs;
    steps := ByWorkerTo(c, steps, [], 1, s4, 2, Take, s5);
  }

  lemma LateHoldsThePiece(c: Config, s: State, run: Run)
    requires c.nPiece == 1 && s == At([], 1, run) && run.workers == [Gone(true), Gone(true), Requesting(0)]
    ensures !HoldsNothing(s.runs[0]) && !AllHanded(c, s)
  {
    assert Holds(run.workers[2], 0);
    assert multiset(s.handed)[0] == 0;
  }

  /** A third worker registers only after the wait has passed, and takes the piece: completion is posted with no
      piece in the channel or the dispatcher, and yet nothing was handed over. */
  lemma LateWorkerTakesThePiece() returns (c: Config, steps: seq<Step>)
    ensures Admissible(c, steps) && PostedBy(Execute(c, steps), 0) && |Execute(c, steps).runs| == 1
    ensures c.nPiece == 1 && Execute(c, steps).handed == []
    ensures NoPieceQueued(Execute(c, steps).runs[0]) && !AllHanded(c, Execute(c, steps))
    ensures !HoldsNothing(Execute(c, steps).runs[0])
  {
    hide Admissible, Execute, HoldsNothing, AllHanded;
    c := Tiny(1);
    var run := Late([None, None], Requesting(0), 1, Ready);
    steps := LateTakes();
    steps := Reports(c, steps, [], 1, run);
    LateHoldsThePiece(c, Execute(c, steps), run.(waiter := Over(true)));
  }

  // ---------------------------------------------------------------- starting again

  /** The cancelled run with its piece in the channel. */
  function Left(): Run {
    Two(true, [Some(0), None], Gone(true), Gone(true), 0, 0, Ready, Over(true))
  }

  lemma ResumedSelectsNothing() returns (steps: seq<Step>)
    ensures Admissible(Tiny(0), steps)
    ensures Execute(Tiny(0), steps)
            == At([Left()], 1, Two(false, [], Waiting, Unstarted, 0, 1, Sending(None), AtWait(true)))
  {
    hide Admissible, Execute, At;
    var c := Tiny(0);
    var s0 := Two(false, [], Unstarted, Unstarted, 0, 0, Ready, Absent);
    var s1 := Two(false, [], Signalling, Unstarted, 0, 1, Ready, Absent);
    var s2 := Two(false, [], Waiting, Unstarted, 0, 1, Selecting, Absent);
    var s3 := Two(false, [], Waiting, Unstarted, 0, 1, Sending(None), AtWait(true));
    steps := WaitPasses(0);
    steps := Reports(c, steps, [], 1, Left().(waiter := Passed(true)));
    OnlyRun(1, Left());
    assert FreshRun(c).workers == s0.workers;
    steps := StartedAt(c, steps, [Left()], 1);
    steps := ByWorkerTo(c, steps, [Left()], 1, s0, 0, Register, s1);
    steps := ByWorkerTo(c, steps, [Left()], 1, s1, 0, Signal, s2);
    steps := ByRunTo(c, steps, [Left()], 1, s2, Select, s3);
  }

  lemma ResumedTakesNil() returns (steps: seq<Step>)
    ensures Admissible(Tiny(0), steps)
    ensures Execute(Tiny(0), steps)
            == At([Left()], 1, Two(false, [], Retiring(false), Unstarted, 0, 1, Ready, AtWait(true)))
  {
    hide Admissible, Execute, At, Left;
    var c := Tiny(0);
    var s3 := Two(false, [], Waiting, Unstarted, 0, 1, Sending(None), AtWait(true));
    var s4 := Two(false, [None], Waiting, Unstarted, 0, 1, Ready, AtWait(true));
    var s5 := Two(false, [], Retiring(false), Unstarted, 0, 1, Ready, AtWait(true));
    steps := ResumedSelectsNothing();
    steps := ByRunTo(c, steps, [Left()], 1, s3, Send, s4);
    assert [None] + s5.jobs == s4.jobs;
    steps := ByWorkerTo(c, steps, [Left()], 1, s4, 0, Take, s5);
  }

  lemma ResumedWaitPasses() returns (steps: seq<Step>)
    ensures Admissible(Tiny(0), steps)
    ensures Execute(Tiny(0), steps)
            == At([Left()], 1, Two(false, [], Gone(false), Unstarted, 0, 0, Ready, Passed(true)))
  {
    hide Admissible, Execute, At, Left;
    var c := Tiny(0);
    var s5 := Two(false, [], Retiring(false), Unstarted, 0, 1, Ready, AtWait(true));
    var s6 := Two(false, [], Gone(false), Unstarted, 0, 0, Ready, AtWait(true));
    steps := ResumedTakesNil();
    steps := ByWorkerTo(c, steps, [Left()], 1, s5, 0, Retire, s6);
    steps := ByRunTo(c, steps, [Left()], 1, s6, PassWait, s6.(waiter := Passed(true)));
  }

  lemma LeftIsAbandoned(run: Run)
    ensures Abandoned(At([Left()], 1, run), 0, 0)
  {
    assert Left().jobs[0] == Some(0);
  }

  /** Started again after the cancellation, the engine finds every piece selected: the new run, never cancelled,
      posts completion while the piece is still in the channel of the old one. */
  lemma ResumedRunPostsCompletion() returns (c: Config, steps: seq<Step>)
    ensures Admissible(c, steps) && PostedBy(Execute(c, steps), 1) && |Execute(c, steps).runs| == 2
    ensures !Execute(c, steps).runs[1].cancelled
    ensures c.nPiece == 1 && Execute(c, steps).handed == [] && Abandoned(Execute(c, steps), 0, 0)
  {
    hide Admissible, Execute, Abandoned;
    c := Tiny(0);
    var run := Two(false, [], Gone(false), Unstarted, 0, 0, Ready, Passed(true));
    steps := ResumedWaitPasses();
    steps := Reports(c, steps, [Left()], 1, run);
    LeftIsAbandoned(run.(waiter := Over(true)));
  }
}
