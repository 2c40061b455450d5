/** Every step keeps the invariant; the theorems about all runs of the protocol follow. */
module ProtocolSafety {
  import opened Common
  import opened Protocol
  import opened ProtocolLedger
  import opened ProtocolInvariant

  // ---------------------------------------------------------------- steps of a run

  lemma RunStepKeepsRun(c: Config, s: State, r: nat, act: RunAct)
    requires HasRun(s, r) && RunEnabled(c, s, r, act) && RunOK(c, s.runs[r])
    ensures RunOK(c, RunAfter(c, s, r, act))
  {}

  lemma RunStepKeepsLedger(c: Config, s: State, r: nat, act: RunAct)
    requires HasRun(s, r) && RunEnabled(c, s, r, act) && LedgerOK(c, s)
    ensures LedgerOK(c, RunApply(c, s, r, act))
  {
    var next := RunApply(c, s, r, act);
    forall i: nat
      ensures RunsBear(next.runs, Held(i)) + multiset(next.handed)[i] == One(i < next.lastSelected)
    {
      RunStepMoves(c, s, r, act, Held(i));
    }
  }

  lemma RunStepKeepsSlots(c: Config, s: State, r: nat, act: RunAct)
    requires HasRun(s, r) && RunEnabled(c, s, r, act) && SlotsOK(c, s)
    ensures SlotsOK(c, RunApply(c, s, r, act))
  {
    var next := RunApply(c, s, r, act);
    forall p: nat
      ensures RunsBear(next.runs, Slot(p)) == if p in next.isFree then next.isFree[p] else 0
    {
      RunStepMoves(c, s, r, act, Slot(p));
    }
  }

  /** Steps that touch no worker, selector, lock or slot counter. */
  lemma RunStepKeepsSelection(c: Config, s: State, r: nat, act: RunAct)
    requires HasRun(s, r) && RunEnabled(c, s, r, act) && SelectorsOK(c, s) && WorkersOK(c, s) && WakeOK(c, s)
    ensures var next := RunApply(c, s, r, act); SelectorsOK(c, next) && WorkersOK(c, next) && WakeOK(c, next)
  {
    var next := RunApply(c, s, r, act);
    assert forall k :: 0 <= k < |s.runs| ==>
        next.runs[k].selector == s.runs[k].selector && next.runs[k].workers == s.runs[k].workers;
    forall k: nat | k < |next.runs|
      ensures SelectorOK(c, next, k)
    {
      assert SelectorOK(c, s, k);
    }
    forall k: nat, m: nat | k < m < |next.runs|
      ensures Apart(next, k, m)
    {
      assert Apart(s, k, m);
    }
    assert AlertPending(s.runs[0]) <==> AlertPending(next.runs[0]);
    assert forall p, i :: Available(c, s, p, i) <==> Available(c, next, p, i);
  }

  /** With every piece selected, no worker counted and nothing cancelled, the one run holds no piece. */
  lemma NothingHeldAtRest(c: Config, s: State)
    requires RunsOK(c, s) && LedgerOK(c, s)
    requires |s.runs| == 1 && !s.runs[0].cancelled && s.runs[0].waitCount == 0
    ensures s.runs[0].jobs == [] && Pending(s.runs[0].dispatcher) == 0
    ensures forall w :: 0 <= w < |s.runs[0].workers| ==> s.runs[0].workers[w] in {Unstarted, Gone(false)}
    ensures forall i: nat :: RunsBear(s.runs, Held(i)) == 0
  {
    var run := s.runs[0];
    assert RunOK(c, run);
    forall w: nat | w < |run.workers|
      ensures run.workers[w] in {Unstarted, Gone(false)}
    {
      WorkersBearOne(run.workers, w, Member);
      assert !LeftOnCancel(run.workers[w]);
    }
    WorkersBearNone(run.workers, Seat);
    forall i: nat
      ensures RunsBear(s.runs, Held(i)) == 0
    {
      WorkersBearNone(run.workers, Held(i));
      assert s.runs[1..] == [];
    }
  }

  lemma RunStepKeepsOutcome(c: Config, s: State, r: nat, act: RunAct)
    requires HasRun(s, r) && RunEnabled(c, s, r, act) && RunsOK(c, s) && LedgerOK(c, s) && OutcomeOK(c, s)
    ensures OutcomeOK(c, RunApply(c, s, r, act))
  {
    var next := RunApply(c, s, r, act);
    if act.PassWait? && |s.runs| == 1 && !s.runs[0].cancelled {
      assert RunOK(c, s.runs[0]);
      NothingHeldAtRest(c, s);
    }
    forall k | 0 <= k < |next.runs| && !next.runs[k].waiter.Absent? && next.runs[k].waiter.completed
      ensures next.totalSelected == c.nPiece
    {
      if k != r {
        assert next.runs[k] == s.runs[k];
      }
    }
  }

  lemma RunStepKeepsInv(c: Config, s: State, r: nat, act: RunAct)
    requires HasRun(s, r) && RunEnabled(c, s, r, act) && Inv(c, s)
    ensures Inv(c, RunApply(c, s, r, act))
  {
    var next := RunApply(c, s, r, act);
    forall k | 0 <= k < |next.runs|
      ensures RunOK(c, next.runs[k])
    {
      if k == r {
        RunStepKeepsRun(c, s, r, act);
      } else {
        assert next.runs[k] == s.runs[k];
      }
    }
    RunStepKeepsLedger(c, s, r, act);
    RunStepKeepsSlots(c, s, r, act);
    RunStepKeepsSelection(c, s, r, act);
    RunStepKeepsOutcome(c, s, r, act);
  }

  // ---------------------------------------------------------------- steps of a worker

  /** The selector of run k after a worker's step. */
  function SelectorThen(s: State, r: nat, w: nat, act: WorkerAct, k: nat): Selector
    requires HasWorker(s, r, w) && HasRun(s, k)
    requires act == Request(k) ==> s.runs[r].workers[w].Requesting?
    requires act == Alert(Some(k)) ==> s.runs[k].selector.Parked?
  {
    if act == Request(k) then Locking(PeerRequest(r, w, s.runs[r].workers[w].piece))
    else if act == Alert(Some(k)) then Locking(s.runs[k].selector.request)
    else s.runs[k].selector
  }

  /** A worker's step rewrites its own run, at most one selector and at most one writer. */
  lemma WorkerStepShape(c: Config, s: State, r: nat, w: nat, act: WorkerAct, k: nat)
    requires HasWorker(s, r, w) && WorkerEnabled(c, s, r, w, act) && HasRun(s, k)
    ensures var next := WorkerApply(c, s, r, w, act);
            && |next.runs| == |s.runs|
            && next.runs[k] == (if k == r then OwnRunAfter(c, s, r, w, act) else s.runs[k])
                               .(selector := SelectorThen(s, r, w, act, k), writer := next.runs[k].writer)
  {
    hide OwnRunAfter, WorkerAfter;
    OwnRunShape(c, s, r, w, act);
  }

  lemma WorkerStepCounters(c: Config, s: State, r: nat, w: nat, act: WorkerAct)
    requires HasWorker(s, r, w) && WorkerEnabled(c, s, r, w, act)
    ensures var next := WorkerApply(c, s, r, w, act);
            && next.lock == s.lock && next.lastSelected == s.lastSelected && next.totalSelected == s.totalSelected
            && next.isFree
               == (if act.Release? then
                     s.isFree[s.runs[r].workers[w].peer := s.isFree[s.runs[r].workers[w].peer] - 1]
                   else s.isFree)
  {
    hide OwnRunAfter, WorkerAfter;
  }

  /** The change of a worker's own tokens. */
  lemma WorkerTokens(c: Config, s: State, r: nat, w: nat, act: WorkerAct)
    requires HasWorker(s, r, w) && WorkerEnabled(c, s, r, w, act)
    ensures var x, y := s.runs[r].workers[w], WorkerAfter(c, s, r, w, act);
            && WorkerBears(y, Member) == WorkerBears(x, Member) + One(act.Register?) - One(act.Retire?)
            && WorkerBears(y, Seat) == WorkerBears(x, Seat) + One(act.Signal?) - One(act.Take?)
            && (!s.runs[r].cancelled && !LeftOnCancel(x) ==> !LeftOnCancel(y))
  {
    match act
    case Take =>
    case _ =>
  }

  lemma WorkerStepKeepsRun(c: Config, s: State, r: nat, w: nat, act: WorkerAct)
    requires HasWorker(s, r, w) && WorkerEnabled(c, s, r, w, act) && RunOK(c, s.runs[r])
    ensures RunOK(c, OwnRunAfter(c, s, r, w, act))
  {
    WorkerTokens(c, s, r, w, act);
    OwnRunShape(c, s, r, w, act);
    var next := OwnRunAfter(c, s, r, w, act);
    WorkersBearUpdate(s.runs[r].workers, w, WorkerAfter(c, s, r, w, act), Member);
    WorkersBearUpdate(s.runs[r].workers, w, WorkerAfter(c, s, r, w, act), Seat);
    assert act.Signal? ==> s.runs[r].dispatcher.Ready?;
    assert act.Take? ==> s.runs[r].jobs != [];
    hide OwnRunAfter, WorkerAfter, WorkersBear, WorkerBears, WorkerEnabled;
    forall v | 0 <= v < |next.workers| && !next.cancelled
      ensures !LeftOnCancel(next.workers[v])
    {
      assert !LeftOnCancel(s.runs[r].workers[v]);
    }
  }

  lemma WorkerStepKeepsRuns(c: Config, s: State, r: nat, w: nat, act: WorkerAct)
    requires HasWorker(s, r, w) && WorkerEnabled(c, s, r, w, act) && RunsOK(c, s)
    ensures RunsOK(c, WorkerApply(c, s, r, w, act))
  {
    hide WorkerApply, OwnRunAfter, WorkerEnabled, SelectorThen;
    WorkerStepShape(c, s, r, w, act, r);
    forall k: nat | k < |s.runs|
      ensures RunOK(c, WorkerApply(c, s, r, w, act).runs[k])
    {
      assert RunOK(c, s.runs[k]);
      WorkerStepShape(c, s, r, w, act, k);
      WorkerStepKeepsRun(c, s, r, w, act);
    }
  }

  lemma WorkerStepKeepsLedger(c: Config, s: State, r: nat, w: nat, act: WorkerAct)
    requires HasWorker(s, r, w) && WorkerEnabled(c, s, r, w, act) && LedgerOK(c, s)
    ensures LedgerOK(c, WorkerApply(c, s, r, w, act))
  {
    var next := WorkerApply(c, s, r, w, act);
    forall i: nat
      ensures RunsBear(next.runs, Held(i)) + multiset(next.handed)[i] == One(i < next.lastSelected)
    {
      WorkerStepMoves(c, s, r, w, act, Held(i));
    }
  }

  lemma WorkerStepKeepsSlots(c: Config, s: State, r: nat, w: nat, act: WorkerAct)
    requires HasWorker(s, r, w) && WorkerEnabled(c, s, r, w, act) && SlotsOK(c, s)
    ensures SlotsOK(c, WorkerApply(c, s, r, w, act))
  {
    var next := WorkerApply(c, s, r, w, act);
    forall p: nat
      ensures RunsBear(next.runs, Slot(p)) == if p in next.isFree then next.isFree[p] else 0
    {
      WorkerStepMoves(c, s, r, w, act, Slot(p));
    }
  }

  /** No step is possible for a worker that awaits its peer, so a request stays good. */
  lemma RequestStays(c: Config, s: State, r: nat, w: nat, act: WorkerAct, q: PeerRequest)
    requires HasWorker(s, r, w) && WorkerEnabled(c, s, r, w, act) && RequestOK(s, q)
    ensures (q.run != r || q.worker != w) && RequestOK(WorkerApply(c, s, r, w, act), q)
  {
    assert q.run != r || q.worker != w;
    WorkerStepShape(c, s, r, w, act, q.run);
    OwnRunShape(c, s, r, w, act);
    hide WorkerApply, OwnRunAfter, WorkerAfter, WorkerEnabled, SelectorThen;
  }

  lemma RequestMade(c: Config, s: State, r: nat, w: nat, act: WorkerAct, k: nat)
    requires HasWorker(s, r, w) && WorkerEnabled(c, s, r, w, act) && act == Request(k)
    ensures RequestOK(WorkerApply(c, s, r, w, act), PeerRequest(r, w, s.runs[r].workers[w].piece))
  {
    assert WorkerAfter(c, s, r, w, act) == AwaitingPeer(s.runs[r].workers[w].piece);
    WorkerStepShape(c, s, r, w, act, r);
    OwnRunShape(c, s, r, w, act);
    hide WorkerApply, OwnRunAfter, WorkerAfter, WorkerEnabled, SelectorThen;
  }

  lemma WorkerStepKeepsSelector(c: Config, s: State, r: nat, w: nat, act: WorkerAct, k: nat)
    requires HasWorker(s, r, w) && WorkerEnabled(c, s, r, w, act) && HasRun(s, k) && SelectorOK(c, s, k)
    ensures SelectorOK(c, WorkerApply(c, s, r, w, act), k)
  {
    assert act == Request(k) ==> s.runs[k].selector.Idle?;
    assert act == Alert(Some(k)) ==> s.runs[k].selector.Parked?;
    hide WorkerApply, OwnRunAfter, WorkerAfter, WorkerEnabled, RequestOK;
    WorkerStepShape(c, s, r, w, act, k);
    WorkerStepCounters(c, s, r, w, act);
    if act == Request(k) {
      RequestMade(c, s, r, w, act, k);
    } else if HasRequest(s.runs[k].selector) {
      RequestStays(c, s, r, w, act, s.runs[k].selector.request);
    }
  }

  /** A selector's request is the one it had, or was made by the acting worker just now. */
  lemma RequestOrigin(c: Config, s: State, r: nat, w: nat, act: WorkerAct, k: nat)
    requires HasWorker(s, r, w) && WorkerEnabled(c, s, r, w, act) && HasRun(s, k) && SelectorOK(c, s, k)
    ensures var x, y := s.runs[k].selector, WorkerApply(c, s, r, w, act).runs[k].selector;
            HasRequest(y) ==>
              if act == Request(k) then y.request.run == r && y.request.worker == w
              else HasRequest(x) && y.request == x.request && (x.request.run != r || x.request.worker != w)
  {
    hide WorkerApply, OwnRunAfter, WorkerAfter, RequestOK;
    WorkerStepShape(c, s, r, w, act, k);
    if HasRequest(s.runs[k].selector) {
      RequestStays(c, s, r, w, act, s.runs[k].selector.request);
    }
  }

  lemma WorkerStepKeepsApart(c: Config, s: State, r: nat, w: nat, act: WorkerAct, k: nat, m: nat)
    requires HasWorker(s, r, w) && WorkerEnabled(c, s, r, w, act) && k != m
    requires HasRun(s, k) && SelectorOK(c, s, k) && HasRun(s, m) && SelectorOK(c, s, m) && Apart(s, k, m)
    ensures HasRun(WorkerApply(c, s, r, w, act), k) && HasRun(WorkerApply(c, s, r, w, act), m)
    ensures Apart(WorkerApply(c, s, r, w, act), k, m)
  {
    hide WorkerApply, WorkerEnabled, SelectorOK;
    WorkerStepShape(c, s, r, w, act, k);
    RequestOrigin(c, s, r, w, act, k);
    RequestOrigin(c, s, r, w, act, m);
  }

  lemma WorkerStepKeepsSelectors(c: Config, s: State, r: nat, w: nat, act: WorkerAct)
    requires HasWorker(s, r, w) && WorkerEnabled(c, s, r, w, act) && SelectorsOK(c, s)
    ensures SelectorsOK(c, WorkerApply(c, s, r, w, act))
  {
    forall k: nat | k < |s.runs|
      ensures SelectorOK(c, WorkerApply(c, s, r, w, act), k)
    {
      WorkerStepKeepsSelector(c, s, r, w, act, k);
    }
    forall k: nat, m: nat | k < m < |s.runs|
      ensures Apart(WorkerApply(c, s, r, w, act), k, m)
    {
      WorkerStepKeepsApart(c, s, r, w, act, k, m);
    }
  }

  /** Every other worker is as it was. */
  lemma OtherWorker(c: Config, s: State, r: nat, w: nat, act: WorkerAct, k: nat, v: nat)
    requires HasWorker(s, r, w) && WorkerEnabled(c, s, r, w, act)
    requires HasRun(s, k) && HasWorker(WorkerApply(c, s, r, w, act), k, v)
    ensures HasWorker(s, k, v)
    ensures WorkerApply(c, s, r, w, act).runs[k].workers[v]
            == if k == r && v == w then WorkerAfter(c, s, r, w, act) else s.runs[k].workers[v]
  {
    hide WorkerApply, OwnRunAfter, WorkerAfter, WorkerEnabled, SelectorThen;
    WorkerStepShape(c, s, r, w, act, k);
    OwnRunShape(c, s, r, w, act);
  }

  lemma WorkerStepKeepsWorkers(c: Config, s: State, r: nat, w: nat, act: WorkerAct)
    requires HasWorker(s, r, w) && WorkerEnabled(c, s, r, w, act) && WorkersOK(c, s)
    ensures WorkersOK(c, WorkerApply(c, s, r, w, act))
  {
    hide WorkerApply;
    var next := WorkerApply(c, s, r, w, act);
    WorkerStepShape(c, s, r, w, act, r);
    forall k: nat, v: nat | k < |next.runs| && v < |next.runs[k].workers|
      ensures var x := next.runs[k].workers[v];
              x.Downloading? || x.HandingOver? ==> (x.peer, x.piece) in c.offers
    {
      OtherWorker(c, s, r, w, act, k, v);
    }
  }

  /** A worker that owes its Signal still does after another's step. */
  lemma AlertStays(c: Config, s: State, w: nat, act: WorkerAct)
    requires |s.runs| == 1 && HasWorker(s, 0, w) && WorkerEnabled(c, s, 0, w, act) && !act.Alert?
    requires AlertPending(s.runs[0])
    ensures AlertPending(WorkerApply(c, s, 0, w, act).runs[0])
  {
    var v: nat :| v < |s.runs[0].workers| && s.runs[0].workers[v].Released?;
    hide WorkerApply, OwnRunAfter, SelectorThen;
    WorkerStepShape(c, s, 0, w, act, 0);
    OwnRunShape(c, s, 0, w, act);
    assert WorkerApply(c, s, 0, w, act).runs[0].workers[v] == s.runs[0].workers[v];
  }

  /** A released slot is followed by a Signal. */
  lemma ReleaseOwesAlert(c: Config, s: State, w: nat)
    requires |s.runs| == 1 && HasWorker(s, 0, w) && WorkerEnabled(c, s, 0, w, Release)
    ensures AlertPending(WorkerApply(c, s, 0, w, Release).runs[0])
  {
    assert WorkerApply(c, s, 0, w, Release).runs[0].workers[w] == Released;
  }

  lemma WorkerStepKeepsWake(c: Config, s: State, r: nat, w: nat, act: WorkerAct)
    requires HasWorker(s, r, w) && WorkerEnabled(c, s, r, w, act) && WakeOK(c, s) && SelectorsOK(c, s)
    ensures WakeOK(c, WorkerApply(c, s, r, w, act))
  {
    var next := WorkerApply(c, s, r, w, act);
    if |s.runs| == 1 {
      assert SelectorOK(c, s, 0);
      assert act.Alert? && !s.runs[0].selector.Parked? ==> act == Alert(None) && s.lock.None?;
      assert act == Alert(Some(0)) ==> s.runs[0].selector.Parked?;
      hide WorkerApply, OwnRunAfter, WorkerEnabled, AlertPending, WorkerAfter, SelectorOK;
      WorkerStepShape(c, s, 0, w, act, 0);
      WorkerStepCounters(c, s, 0, w, act);
      if act.Release? {
        ReleaseOwesAlert(c, s, w);
      } else {
        if !act.Alert? && AlertPending(s.runs[0]) {
          AlertStays(c, s, w, act);
        }
        assert forall p, i :: Available(c, s, p, i) <==> Available(c, next, p, i);
      }
    } else {
      WorkerStepShape(c, s, r, w, act, r);
    }
  }

  lemma WorkerStepHands(c: Config, s: State, r: nat, w: nat, act: WorkerAct, i: nat)
    requires HasWorker(s, r, w) && WorkerEnabled(c, s, r, w, act)
    ensures multiset(WorkerApply(c, s, r, w, act).handed)[i] >= multiset(s.handed)[i]
  {
    hide OwnRunAfter, WorkerAfter;
  }

  lemma WorkerStepKeepsOutcome(c: Config, s: State, r: nat, w: nat, act: WorkerAct)
    requires HasWorker(s, r, w) && WorkerEnabled(c, s, r, w, act) && LedgerOK(c, s) && OutcomeOK(c, s)
    ensures OutcomeOK(c, WorkerApply(c, s, r, w, act))
  {
    hide WorkerApply, OwnRunAfter, WorkerAfter, WorkerEnabled, SelectorThen, RunsBear;
    var next := WorkerApply(c, s, r, w, act);
    WorkerStepShape(c, s, r, w, act, r);
    WorkerStepCounters(c, s, r, w, act);
    OwnRunShape(c, s, r, w, act);
    forall k: nat | k < |s.runs|
      ensures next.runs[k].waiter == s.runs[k].waiter && next.runs[k].cancelled == s.runs[k].cancelled
    {
      WorkerStepShape(c, s, r, w, act, k);
    }
    if |s.runs| == 1 && !s.runs[0].cancelled && PastWait(s.runs[0].waiter) {
      WorkerStepKeepsLedger(c, s, r, w, act);
      forall i: nat | i < c.nPiece
        ensures multiset(next.handed)[i] == 1
      {
        WorkerStepHands(c, s, r, w, act, i);
        assert multiset(s.handed)[i] == 1;
      }
    }
  }

  lemma WorkerStepKeepsInv(c: Config, s: State, r: nat, w: nat, act: WorkerAct)
    requires HasWorker(s, r, w) && WorkerEnabled(c, s, r, w, act) && Inv(c, s)
    ensures Inv(c, WorkerApply(c, s, r, w, act))
  {
    WorkerStepKeepsRuns(c, s, r, w, act);
    WorkerStepKeepsLedger(c, s, r, w, act);
    WorkerStepKeepsSlots(c, s, r, w, act);
    WorkerStepKeepsSelectors(c, s, r, w, act);
    WorkerStepKeepsWorkers(c, s, r, w, act);
    WorkerStepKeepsWake(c, s, r, w, act);
    WorkerStepKeepsOutcome(c, s, r, w, act);
  }

  // ---------------------------------------------------------------- steps of a selector

  /** The workers of run k after a selector's step: the response sets one of them downloading. */
  function WorkersThen(s: State, r: nat, act: SelectorAct, k: nat): seq<Worker>
    requires HasRun(s, r) && HasRun(s, k)
    requires act.Respond? ==> s.runs[r].selector.Granted? && RequestOK(s, s.runs[r].selector.request)
  {
    var x := s.runs[r].selector;
    if act.Respond? && k == x.request.run then
      s.runs[k].workers[x.request.worker := Downloading(x.request.piece, x.peer)]
    else s.runs[k].workers
  }

  lemma SelectorStepShape(c: Config, s: State, r: nat, act: SelectorAct, k: nat)
    requires HasRun(s, r) && SelectorEnabled(c, s, r, act) && HasRun(s, k)
    ensures var next := SelectorApply(c, s, r, act);
            && |next.runs| == |s.runs|
            && next.runs[k]
               == s.runs[k].(selector := if k == r then SelectorAfter(c, s, r, act) else s.runs[k].selector,
                             workers := WorkersThen(s, r, act, k))
  {
    hide SelectorAfter;
  }

  lemma SelectorStepKeepsRuns(c: Config, s: State, r: nat, act: SelectorAct)
    requires HasRun(s, r) && SelectorEnabled(c, s, r, act) && RunsOK(c, s)
    ensures RunsOK(c, SelectorApply(c, s, r, act))
  {
    var x := s.runs[r].selector;
    assert act.Respond? ==> x.Granted? && RequestOK(s, x.request);
    hide SelectorApply, SelectorAfter, SelectorEnabled, WorkersBear;
    SelectorStepShape(c, s, r, act, r);
    forall k: nat | k < |s.runs|
      ensures RunOK(c, SelectorApply(c, s, r, act).runs[k])
    {
      assert RunOK(c, s.runs[k]);
      SelectorStepShape(c, s, r, act, k);
      if act.Respond? && k == x.request.run {
        WorkersBearUpdate(s.runs[k].workers, x.request.worker, Downloading(x.request.piece, x.peer), Member);
        WorkersBearUpdate(s.runs[k].workers, x.request.worker, Downloading(x.request.piece, x.peer), Seat);
      }
    }
  }

  lemma SelectorStepKeepsLedger(c: Config, s: State, r: nat, act: SelectorAct)
    requires HasRun(s, r) && SelectorEnabled(c, s, r, act) && LedgerOK(c, s)
    ensures LedgerOK(c, SelectorApply(c, s, r, act))
  {
    var next := SelectorApply(c, s, r, act);
    forall i: nat
      ensures RunsBear(next.runs, Held(i)) + multiset(next.handed)[i] == One(i < next.lastSelected)
    {
      SelectorStepMoves(c, s, r, act, Held(i));
    }
  }

  lemma SelectorStepKeepsSlots(c: Config, s: State, r: nat, act: SelectorAct)
    requires HasRun(s, r) && SelectorEnabled(c, s, r, act) && SlotsOK(c, s) && SelectorsOK(c, s)
    ensures SlotsOK(c, SelectorApply(c, s, r, act))
  {
    var next := SelectorApply(c, s, r, act);
    assert SelectorOK(c, s, r);
    forall p: nat
      ensures RunsBear(next.runs, Slot(p)) == if p in next.isFree then next.isFree[p] else 0
    {
      SelectorStepMoves(c, s, r, act, Slot(p));
    }
  }

  /** A request other than the one that is answered stays good. */
  lemma RequestSurvives(c: Config, s: State, r: nat, act: SelectorAct, q: PeerRequest)
    requires HasRun(s, r) && SelectorEnabled(c, s, r, act) && RequestOK(s, q)
    requires act.Respond? ==>
               var p := s.runs[r].selector.request; q.run != p.run || q.worker != p.worker
    ensures RequestOK(SelectorApply(c, s, r, act), q)
  {
    assert act.Respond? ==> s.runs[r].selector.Granted? && RequestOK(s, s.runs[r].selector.request);
    hide SelectorApply, SelectorAfter, SelectorEnabled;
    SelectorStepShape(c, s, r, act, q.run);
  }

  /** The lock and the slots around one selector's step. */
  lemma SelectorStepLock(c: Config, s: State, r: nat, act: SelectorAct)
    requires HasRun(s, r) && SelectorEnabled(c, s, r, act) && SelectorOK(c, s, r) && SlotsOK(c, s)
    ensures var next, x, y := SelectorApply(c, s, r, act), s.runs[r].selector, SelectorAfter(c, s, r, act);
            && (HoldsLock(y) <==> next.lock == Some(r))
            && (next.lock == s.lock || (s.lock.None? && next.lock == Some(r)) || (s.lock == Some(r) && next.lock.None?))
            && (HasRequest(y) ==> HasRequest(x) && y.request == x.request && !act.Respond?)
            && (y.Scanning? ==> y.todo <= c.peers)
            && (y.Found? || y.Granted? ==> y.peer in c.peers && (y.peer, y.request.piece) in c.offers)
            && (y.Found? ==> y.peer in next.isFree && next.isFree[y.peer] < MAX_PIECE_PER_PEER)
            && (next.isFree == s.isFree || (act.Grant? && s.lock == Some(r)))
  {}

  lemma SelectorStepKeepsSelector(c: Config, s: State, r: nat, act: SelectorAct, k: nat)
    requires HasRun(s, r) && SelectorEnabled(c, s, r, act) && SlotsOK(c, s)
    requires HasRun(s, k) && SelectorOK(c, s, k) && SelectorOK(c, s, r) && (k != r ==> Apart(s, k, r))
    ensures SelectorOK(c, SelectorApply(c, s, r, act), k)
  {
    var x := s.runs[k].selector;
    assert act.Respond? ==> s.runs[r].selector.Granted?;
    hide SelectorApply, SelectorAfter, SelectorEnabled, RequestOK, SlotsOK;
    SelectorStepShape(c, s, r, act, k);
    SelectorStepLock(c, s, r, act);
    if HasRequest(x) && (k != r || !act.Respond?) {
      RequestSurvives(c, s, r, act, x.request);
    }
  }

  lemma SelectorStepKeepsSelectors(c: Config, s: State, r: nat, act: SelectorAct)
    requires HasRun(s, r) && SelectorEnabled(c, s, r, act) && SelectorsOK(c, s) && SlotsOK(c, s)
    ensures SelectorsOK(c, SelectorApply(c, s, r, act))
  {
    hide SelectorApply, SelectorAfter, SelectorEnabled, SlotsOK, SelectorOK;
    var next := SelectorApply(c, s, r, act);
    SelectorStepShape(c, s, r, act, r);
    assert SelectorOK(c, s, r);
    SelectorStepLock(c, s, r, act);
    forall k: nat | k < |next.runs|
      ensures SelectorOK(c, next, k)
    {
      assert SelectorOK(c, s, k);
      assert k != r ==> Apart(s, k, r) by {
        assert k < r ==> Apart(s, k, r);
        assert r < k ==> Apart(s, r, k);
      }
      SelectorStepKeepsSelector(c, s, r, act, k);
    }
    forall k: nat, m: nat | k < m < |next.runs|
      ensures Apart(next, k, m)
    {
      assert Apart(s, k, m);
      SelectorStepShape(c, s, r, act, k);
      SelectorStepShape(c, s, r, act, m);
    }
  }

  lemma SelectorStepKeepsWorkers(c: Config, s: State, r: nat, act: SelectorAct)
    requires HasRun(s, r) && SelectorEnabled(c, s, r, act) && WorkersOK(c, s) && SelectorsOK(c, s)
    ensures WorkersOK(c, SelectorApply(c, s, r, act))
  {
    assert SelectorOK(c, s, r);
  }

  lemma SelectorStepKeepsWake(c: Config, s: State, r: nat, act: SelectorAct)
    requires HasRun(s, r) && SelectorEnabled(c, s, r, act) && WakeOK(c, s) && SelectorsOK(c, s)
    ensures WakeOK(c, SelectorApply(c, s, r, act))
  {
    var next := SelectorApply(c, s, r, act);
    if |s.runs| == 1 && !act.Respond? {
      assert next.runs[0].workers == s.runs[0].workers;
      assert act.Test? || act.Park? ==> forall p, i :: Available(c, s, p, i) <==> Available(c, next, p, i);
    }
  }

  lemma SelectorStepKeepsOutcome(c: Config, s: State, r: nat, act: SelectorAct)
    requires HasRun(s, r) && SelectorEnabled(c, s, r, act) && OutcomeOK(c, s)
    ensures OutcomeOK(c, SelectorApply(c, s, r, act))
  {
    var next := SelectorApply(c, s, r, act);
    assert forall k :: 0 <= k < |s.runs| ==>
        next.runs[k].waiter == s.runs[k].waiter && next.runs[k].cancelled == s.runs[k].cancelled;
  }

  lemma SelectorStepKeepsInv(c: Config, s: State, r: nat, act: SelectorAct)
    requires HasRun(s, r) && SelectorEnabled(c, s, r, act) && Inv(c, s)
    ensures Inv(c, SelectorApply(c, s, r, act))
  {
    SelectorStepKeepsRuns(c, s, r, act);
    SelectorStepKeepsLedger(c, s, r, act);
    SelectorStepKeepsSlots(c, s, r, act);
    SelectorStepKeepsSelectors(c, s, r, act);
    SelectorStepKeepsWorkers(c, s, r, act);
    SelectorStepKeepsWake(c, s, r, act);
    SelectorStepKeepsOutcome(c, s, r, act);
  }

  // ---------------------------------------------------------------- a new run

  lemma StartKeepsBooks(c: Config, s: State)
    requires RunsOK(c, s) && LedgerOK(c, s) && SlotsOK(c, s)
    ensures var next := Apply(c, s, Start); RunsOK(c, next) && LedgerOK(c, next) && SlotsOK(c, next)
  {
    var next := Apply(c, s, Start);
    var added := FreshRun(c);
    WorkersBearNone(added.workers, Member);
    WorkersBearNone(added.workers, Seat);
    forall t: Token
      ensures RunsBear(next.runs, t) == RunsBear(s.runs, t)
    {
      RunsBearAppend(s.runs, added, t);
      FreshRunBears(c, t);
    }
  }

  lemma StartKeepsSelectors(c: Config, s: State)
    requires SelectorsOK(c, s) && WorkersOK(c, s)
    ensures var next := Apply(c, s, Start); SelectorsOK(c, next) && WorkersOK(c, next)
  {
    var next := Apply(c, s, Start);
    forall k: nat | k < |next.runs|
      ensures SelectorOK(c, next, k)
    {
      if k < |s.runs| {
        assert SelectorOK(c, s, k);
      }
    }
    forall k: nat, m: nat | k < m < |next.runs|
      ensures Apart(next, k, m)
    {
      if m < |s.runs| {
        assert Apart(s, k, m);
      }
    }
  }

  lemma StartKeepsInv(c: Config, s: State)
    requires Inv(c, s)
    ensures Inv(c, Apply(c, s, Start))
  {
    StartKeepsBooks(c, s);
    StartKeepsSelectors(c, s);
  }

  lemma StepKeepsInv(c: Config, s: State, step: Step)
    requires Enabled(c, s, step) && Inv(c, s)
    ensures Inv(c, Apply(c, s, step))
  {
    match step
    case Start => StartKeepsInv(c, s);
    case ByRun(r, act) => RunStepKeepsInv(c, s, r, act);
    case ByWorker(r, w, act) => WorkerStepKeepsInv(c, s, r, w, act);
    case BySelector(r, act) => SelectorStepKeepsInv(c, s, r, act);
  }

  lemma {:induction false} InvAlways(c: Config, steps: seq<Step>)
    requires Admissible(c, steps)
    ensures Inv(c, Execute(c, steps))
    decreases |steps|
  {
    if steps != [] {
      InvAlways(c, steps[..|steps| - 1]);
      StepKeepsInv(c, Execute(c, steps[..|steps| - 1]), steps[|steps| - 1]);
    }
  }
}
