/** A lone run that is not cancelled never deadlocks before it has posted completion, and does only a bounded
    amount of work, provided that there is a worker and that some peer offers each piece. */
module ProtocolProgress {
  import opened Common
  import opened Protocol
  import opened ProtocolLedger
  import opened ProtocolInvariant
  import opened ProtocolSafety

  ghost predicate Offered(c: Config, i: nat) {
    exists p :: p in c.peers && (p, i) in c.offers
  }

  ghost predicate AllOffered(c: Config) {
    forall i: nat :: i < c.nPiece ==> Offered(c, i)
  }

  // ---------------------------------------------------------------- a second invariant, of a lone run

  predicate LeftWhenDone(x: Worker) {
    (x.Retiring? || x.Gone?) && !x.cancelled
  }

  /** A nil job, and a worker that left because of one, come only after the waiter was spawned; goroutines end
      only after their context was cancelled. */
  ghost predicate EndsInOrder(c: Config, run: Run) {
    && (run.dispatcher.Ended? ==> LocalCancelled(run))
    && (run.selector.Stopped? || run.writer.Closed? ==> ChildrenCancelled(run))
    && (run.waiter.Absent? ==>
          && run.dispatcher != Sending(None)
          && (forall k :: 0 <= k < |run.jobs| ==> run.jobs[k].Some?)
          && forall w :: 0 <= w < |run.workers| ==> !LeftWhenDone(run.workers[w]))
    && (!run.waiter.Absent? ==> c.nWorker > 0)
  }

  /** A worker parked on its response channel is the one whose request the selector has. */
  ghost predicate Served(run: Run) {
    forall w: nat :: w < |run.workers| && run.workers[w].AwaitingPeer? ==>
      HasRequest(run.selector) && run.selector.request == PeerRequest(0, w, run.workers[w].piece)
  }

  ghost predicate HandedOffered(c: Config, s: State) {
    forall i :: i in s.handed ==> Offered(c, i)
  }

  ghost predicate Live(c: Config, s: State) {
    && (|s.runs| == 1 ==> EndsInOrder(c, s.runs[0]) && Served(s.runs[0]))
    && HandedOffered(c, s)
  }

  lemma RunStepKeepsLive(c: Config, s: State, r: nat, act: RunAct)
    requires HasRun(s, r) && RunEnabled(c, s, r, act) && Live(c, s) && RunsOK(c, s)
    ensures Live(c, RunApply(c, s, r, act))
  {
    if |s.runs| == 1 {
      assert RunOK(c, s.runs[0]);
      WorkersBearBound(s.runs[0].workers, Seat);
    }
  }

  /** The peer that a worker hands a piece over for is one of the peers. */
  lemma HeldPeerIsPeer(c: Config, s: State, r: nat, w: nat, p: nat)
    requires HasWorker(s, r, w) && SlotsOK(c, s) && WorkerBears(s.runs[r].workers[w], Slot(p)) > 0
    ensures p in c.peers && p in s.isFree
  {
    WorkersBearOne(s.runs[r].workers, w, Slot(p));
    RunsBearOne(s.runs, r, Slot(p));
  }

  lemma WorkerStepKeepsHanded(c: Config, s: State, r: nat, w: nat, act: WorkerAct)
    requires HasWorker(s, r, w) && WorkerEnabled(c, s, r, w, act) && HandedOffered(c, s) && Inv(c, s)
    ensures HandedOffered(c, WorkerApply(c, s, r, w, act))
  {
    var x := s.runs[r].workers[w];
    if act.HandOver? {
      HeldPeerIsPeer(c, s, r, w, x.peer);
      assert Offered(c, x.piece);
    }
  }

  lemma OwnRunEndsInOrder(c: Config, s: State, w: nat, act: WorkerAct)
    requires |s.runs| == 1 && HasWorker(s, 0, w) && WorkerEnabled(c, s, 0, w, act)
    requires EndsInOrder(c, s.runs[0]) && RunOK(c, s.runs[0])
    ensures EndsInOrder(c, OwnRunAfter(c, s, 0, w, act))
  {
    var run, next := s.runs[0], OwnRunAfter(c, s, 0, w, act);
    forall v | 0 <= v < |next.workers| && run.waiter.Absent?
      ensures !LeftWhenDone(next.workers[v])
    {
      assert !LeftWhenDone(run.workers[v]);
    }
  }

  lemma OwnRunServed(c: Config, s: State, w: nat, act: WorkerAct)
    requires |s.runs| == 1 && HasWorker(s, 0, w) && WorkerEnabled(c, s, 0, w, act)
    requires Served(s.runs[0])
    ensures Served(WorkerApply(c, s, 0, w, act).runs[0])
  {
    var run, next := s.runs[0], WorkerApply(c, s, 0, w, act).runs[0];
    assert next.workers == run.workers[w := WorkerAfter(c, s, 0, w, act)];
    assert act.Request? ==> next.selector == Locking(PeerRequest(0, w, run.workers[w].piece));
    assert !act.Request? && HasRequest(run.selector) ==>
        HasRequest(next.selector) && next.selector.request == run.selector.request;
  }

  lemma WorkerStepKeepsLive(c: Config, s: State, r: nat, w: nat, act: WorkerAct)
    requires HasWorker(s, r, w) && WorkerEnabled(c, s, r, w, act) && Live(c, s) && Inv(c, s)
    ensures Live(c, WorkerApply(c, s, r, w, act))
  {
    WorkerStepKeepsHanded(c, s, r, w, act);
    if |s.runs| == 1 {
      assert RunOK(c, s.runs[0]);
      OwnRunEndsInOrder(c, s, w, act);
      OwnRunServed(c, s, w, act);
    }
  }

  lemma SelectorStepKeepsLive(c: Config, s: State, r: nat, act: SelectorAct)
    requires HasRun(s, r) && SelectorEnabled(c, s, r, act) && Live(c, s)
    ensures Live(c, SelectorApply(c, s, r, act))
  {
    if |s.runs| == 1 {
      var run, next := s.runs[0], SelectorApply(c, s, r, act).runs[0];
      var x := run.selector;
      assert next.workers == if act.Respond? then run.workers[x.request.worker := Downloading(x.request.piece, x.peer)]
                             else run.workers;
    }
  }

  lemma StepKeepsLive(c: Config, s: State, step: Step)
    requires Enabled(c, s, step) && Inv(c, s) && Live(c, s)
    ensures Live(c, Apply(c, s, step))
  {
    match step
    case Start =>
    case ByRun(r, act) => RunStepKeepsLive(c, s, r, act);
    case ByWorker(r, w, act) => WorkerStepKeepsLive(c, s, r, w, act);
    case BySelector(r, act) => SelectorStepKeepsLive(c, s, r, act);
  }

  // ---------------------------------------------------------------- no deadlock

  /** Cancelling, starting again and stray signals are the environment's; the rest is the engine's own work. */
  predicate Useful(step: Step) {
    match step
    case Start => false
    case ByRun(_, act) => !act.Cancel?
    case ByWorker(_, _, _) => true
    case BySelector(_, act) => !act.StrayAlert?
  }

  /** One run, not cancelled. */
  predicate Lone(s: State) {
    |s.runs| == 1 && !s.runs[0].cancelled
  }

  predicate Done(run: Run) {
    run.waiter.Over? && !run.writer.Writing?
  }

  predicate BeforeEnd(run: Run) {
    run.waiter.Absent? || run.waiter.AtWait?
  }

  ghost predicate Running(c: Config, s: State) {
    Inv(c, s) && Live(c, s) && Lone(s) && BeforeEnd(s.runs[0]) && AllOffered(c)
  }

  lemma {:induction false} SomeBearer(ws: seq<Worker>, t: Token) returns (w: nat)
    requires WorkersBear(ws, t) > 0
    ensures w < |ws| && WorkerBears(ws[w], t) > 0
  {
    if WorkerBears(ws[0], t) > 0 {
      w := 0;
    } else {
      w := SomeBearer(ws[1..], t);
      w := w + 1;
    }
  }

  lemma LockIsSelectors(c: Config, s: State)
    requires Inv(c, s) && Lone(s)
    ensures s.lock == if HoldsLock(s.runs[0].selector) then Some(0) else None
  {
    assert SelectorOK(c, s, 0);
  }

  /** A worker with a slot is never blocked for long: it can go on, or the writer can. */
  lemma SlotHolderCanStep(c: Config, s: State, w: nat) returns (step: Step)
    requires Running(c, s) && HasWorker(s, 0, w)
    requires var x := s.runs[0].workers[w]; x.Downloading? || x.HandingOver? || x.Releasing?
    ensures Enabled(c, s, step) && Useful(step)
  {
    var x := s.runs[0].workers[w];
    if x.Downloading? {
      step := ByWorker(0, w, Finish);
    } else if x.Releasing? {
      HeldPeerIsPeer(c, s, 0, w, x.peer);
      step := ByWorker(0, w, Release);
    } else {
      step := if s.runs[0].writer.Free? then ByWorker(0, w, HandOver(0)) else ByRun(0, WriteDone);
    }
  }

  /** A parked selector is woken, or its peers' slots are held by workers that can go on. */
  lemma ParkedIsServed(c: Config, s: State) returns (step: Step)
    requires Running(c, s) && s.runs[0].selector.Parked?
    ensures Enabled(c, s, step) && Useful(step)
  {
    var run := s.runs[0];
    var request := run.selector.request;
    LockIsSelectors(c, s);
    if AlertPending(run) {
      var w: nat :| w < |run.workers| && run.workers[w].Released?;
      step := ByWorker(0, w, Alert(Some(0)));
    } else {
      RequestedIsSelected(c, s);
      assert Offered(c, request.piece);
      var p :| p in c.peers && (p, request.piece) in c.offers;
      assert !Available(c, s, p, request.piece);
      assert s.isFree[p] == MAX_PIECE_PER_PEER;
      assert RunsBear(s.runs, Slot(p)) > 0;
      var w := SlotHolder(s, p);
      step := SlotHolderCanStep(c, s, w);
    }
  }

  lemma SlotHolder(s: State, p: nat) returns (w: nat)
    requires |s.runs| == 1 && s.runs[0].selector.Parked? && RunsBear(s.runs, Slot(p)) > 0
    ensures HasWorker(s, 0, w) && WorkerBears(s.runs[0].workers[w], Slot(p)) > 0
  {
    assert s.runs[1..] == [];
    NoJobIsSlot(s.runs[0].jobs, p);
    w := SomeBearer(s.runs[0].workers, Slot(p));
  }

  lemma {:induction false} NoJobIsSlot(jobs: seq<Option<nat>>, p: nat)
    ensures JobsBear(jobs, Slot(p)) == 0
  {
    if jobs != [] {
      NoJobIsSlot(jobs[1..], p);
    }
  }

  lemma RequestedIsSelected(c: Config, s: State)
    requires Inv(c, s) && Lone(s) && HasRequest(s.runs[0].selector)
    ensures s.runs[0].selector.request.piece < c.nPiece
  {
    var q := s.runs[0].selector.request;
    assert SelectorOK(c, s, 0);
    WorkersBearOne(s.runs[0].workers, q.worker, Held(q.piece));
    RunsBearOne(s.runs, 0, Held(q.piece));
  }

  lemma SelectorCanStep(c: Config, s: State) returns (step: Step)
    requires Running(c, s) && HasRequest(s.runs[0].selector)
    ensures Enabled(c, s, step) && Useful(step)
  {
    var x := s.runs[0].selector;
    LockIsSelectors(c, s);
    assert SelectorOK(c, s, 0);
    if x.Locking? {
      step := BySelector(0, Lock);
    } else if x.Scanning? {
      if x.todo == {} {
        step := BySelector(0, Park);
      } else {
        var p :| p in x.todo;
        step := BySelector(0, Test(p));
      }
    } else if x.Found? {
      step := BySelector(0, Grant);
    } else if x.Granted? {
      step := BySelector(0, Respond);
    } else {
      step := ParkedIsServed(c, s);
    }
  }

  /** A worker that waits for a job, with the dispatcher ready, finds one in the channel. */
  lemma WaitingFindsJob(c: Config, s: State, w: nat)
    requires Inv(c, s) && Lone(s) && HasWorker(s, 0, w) && s.runs[0].workers[w].Waiting?
    requires Pending(s.runs[0].dispatcher) == 0
    ensures s.runs[0].jobs != []
  {
    assert RunOK(c, s.runs[0]);
    WorkersBearOne(s.runs[0].workers, w, Seat);
  }

  lemma DispatcherCanStep(c: Config, s: State) returns (step: Step)
    requires Inv(c, s) && Lone(s) && Pending(s.runs[0].dispatcher) == 1
    ensures Enabled(c, s, step) && Useful(step)
  {
    assert RunOK(c, s.runs[0]);
    WorkersBearBound(s.runs[0].workers, Seat);
    step := ByRun(0, if s.runs[0].dispatcher.Selecting? then Select else Send);
  }

  /** As long as a worker has not left, some useful step is possible. */
  lemma WorkerCanStep(c: Config, s: State, w: nat) returns (step: Step)
    requires Running(c, s) && HasWorker(s, 0, w) && !s.runs[0].workers[w].Gone?
    ensures Enabled(c, s, step) && Useful(step)
  {
    var run := s.runs[0];
    var x := run.workers[w];
    LockIsSelectors(c, s);
    if Pending(run.dispatcher) == 1 {
      step := DispatcherCanStep(c, s);
    } else if HasRequest(run.selector) {
      step := SelectorCanStep(c, s);
    } else {
      match x
      case Unstarted => step := ByWorker(0, w, Register);
      case Signalling => step := ByWorker(0, w, Signal);
      case Waiting =>
        WaitingFindsJob(c, s, w);
        step := ByWorker(0, w, Take);
      case Requesting(_) => step := ByWorker(0, w, Request(0));
      case AwaitingPeer(_) => assert false;
      case Released => step := ByWorker(0, w, Alert(None));
      case Retiring(_) => step := ByWorker(0, w, Retire);
      case _ => step := SlotHolderCanStep(c, s, w);
    }
  }

  /** When all workers have left, the waiter is there and its wait is over. */
  lemma WaitIsOver(c: Config, s: State)
    requires Running(c, s) && c.nWorker > 0
    requires forall w: nat :: w < |s.runs[0].workers| ==> s.runs[0].workers[w].Gone?
    ensures s.runs[0].waiter.AtWait? && s.runs[0].waitCount == 0
  {
    var run := s.runs[0];
    assert RunOK(c, run);
    assert LeftWhenDone(run.workers[0]);
    WorkersBearNone(run.workers, Member);
  }

  /** No deadlock: a lone run with a worker, whose pieces are all offered, can go on until it is done. */
  lemma CanStep(c: Config, s: State) returns (step: Step)
    requires Inv(c, s) && Live(c, s) && Lone(s) && !Done(s.runs[0]) && c.nWorker > 0 && AllOffered(c)
    ensures Enabled(c, s, step) && Useful(step)
  {
    var run := s.runs[0];
    match run.waiter
    case Passed(_) => step := ByRun(0, StopChildren);
    case ChildrenStopped(_) => step := ByRun(0, StopMain);
    case MainStopped(_) => step := ByRun(0, Post);
    case Over(_) => step := ByRun(0, WriteDone);
    case _ =>
      step := ByRun(0, PassWait);
      if w: nat :| w < |run.workers| && !run.workers[w].Gone? {
        step := WorkerCanStep(c, s, w);
      } else {
        WaitIsOver(c, s);
      }
  }
}
