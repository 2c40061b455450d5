/** What every step of the protocol keeps, and what therefore holds in every run. */
module ProtocolInvariant {
  import opened Common
  import opened Protocol
  import opened ProtocolLedger

  // ---------------------------------------------------------------- the books of one run

  function Pending(d: Dispatcher): nat {
    if d.Selecting? || d.Sending? then 1 else 0
  }

  predicate LeftOnCancel(x: Worker) {
    (x.Retiring? || x.Gone?) && x.cancelled
  }

  ghost predicate RunOK(c: Config, run: Run) {
    && |run.workers| == c.nWorker
    && run.waitCount == WorkersBear(run.workers, Member)
    && |run.jobs| + Pending(run.dispatcher) == WorkersBear(run.workers, Seat)
    && (!run.cancelled ==>
          && !run.shuttingDown
          && (forall w :: 0 <= w < |run.workers| ==> !LeftOnCancel(run.workers[w]))
          && (!run.waiter.Absent? ==> run.waiter.completed))
  }

  ghost predicate RunsOK(c: Config, s: State) {
    forall r :: 0 <= r < |s.runs| ==> RunOK(c, s.runs[r])
  }

  // ---------------------------------------------------------------- the books of all runs

  /** Each selected index is in exactly one place; an index not yet selected is nowhere. */
  ghost predicate LedgerOK(c: Config, s: State) {
    && s.lastSelected == s.totalSelected <= c.nPiece
    && forall i: nat :: RunsBear(s.runs, Held(i)) + multiset(s.handed)[i] == One(i < s.lastSelected)
  }

  ghost predicate SlotsOK(c: Config, s: State) {
    && s.isFree.Keys == c.peers
    && (forall p: nat :: RunsBear(s.runs, Slot(p)) == if p in s.isFree then s.isFree[p] else 0)
    && (forall p :: p in s.isFree ==> s.isFree[p] <= MAX_PIECE_PER_PEER)
  }

  // ---------------------------------------------------------------- the selectors

  predicate HasRequest(x: Selector) {
    !x.Idle? && !x.Stopped?
  }

  predicate HoldsLock(x: Selector) {
    x.Scanning? || x.Found? || x.Granted?
  }

  /** The worker behind a request is parked on its response channel until the grant reaches it. */
  ghost predicate RequestOK(s: State, q: PeerRequest) {
    HasWorker(s, q.run, q.worker) && s.runs[q.run].workers[q.worker] == AwaitingPeer(q.piece)
  }

  ghost predicate SelectorOK(c: Config, s: State, r: nat)
    requires HasRun(s, r)
  {
    var x := s.runs[r].selector;
    && (HoldsLock(x) <==> s.lock == Some(r))
    && (HasRequest(x) ==> RequestOK(s, x.request))
    && (x.Scanning? ==> x.todo <= c.peers)
    && (x.Found? || x.Granted? ==> x.peer in c.peers && (x.peer, x.request.piece) in c.offers)
    && (x.Found? ==> x.peer in s.isFree && s.isFree[x.peer] < MAX_PIECE_PER_PEER)
  }

  /** Two selectors never serve the same worker. */
  ghost predicate Apart(s: State, r: nat, k: nat)
    requires HasRun(s, r) && HasRun(s, k)
  {
    HasRequest(s.runs[r].selector) && HasRequest(s.runs[k].selector) ==>
      var p, q := s.runs[r].selector.request, s.runs[k].selector.request;
      p.run != q.run || p.worker != q.worker
  }

  ghost predicate SelectorsOK(c: Config, s: State) {
    && (s.lock.Some? ==> HasRun(s, s.lock.value))
    && (forall r: nat :: r < |s.runs| ==> SelectorOK(c, s, r))
    && (forall r: nat, k: nat :: r < k < |s.runs| ==> Apart(s, r, k))
  }

  /** A worker downloads only from a peer that offers its piece. */
  ghost predicate WorkersOK(c: Config, s: State) {
    forall r, w :: 0 <= r < |s.runs| && 0 <= w < |s.runs[r].workers| ==>
      var x := s.runs[r].workers[w];
      x.Downloading? || x.HandingOver? ==> (x.peer, x.piece) in c.offers
  }

  // ---------------------------------------------------------------- waking the selector

  ghost predicate AlertPending(run: Run) {
    exists w :: 0 <= w < |run.workers| && run.workers[w].Released?
  }

  /** No peer outside `todo` is available for piece i, unless a worker still owes its Signal. */
  ghost predicate NothingMissed(c: Config, s: State, run: Run, i: nat, todo: set<nat>) {
    AlertPending(run) || forall p :: p in c.peers && p !in todo ==> !Available(c, s, p, i)
  }

  ghost predicate WakeOK(c: Config, s: State) {
    |s.runs| == 1 ==>
      var x := s.runs[0].selector;
      && (x.Parked? ==> NothingMissed(c, s, s.runs[0], x.request.piece, {}))
      && (x.Scanning? ==> NothingMissed(c, s, s.runs[0], x.request.piece, x.todo))
  }

  // ---------------------------------------------------------------- the outcome

  predicate PastWait(x: Waiter) {
    !x.Absent? && !x.AtWait?
  }

  ghost predicate AllHanded(c: Config, s: State) {
    forall i: nat :: i < c.nPiece ==> multiset(s.handed)[i] == 1
  }

  ghost predicate OutcomeOK(c: Config, s: State) {
    && (forall r :: 0 <= r < |s.runs| && !s.runs[r].waiter.Absent? && s.runs[r].waiter.completed ==>
          s.totalSelected == c.nPiece)
    && (|s.runs| == 1 && !s.runs[0].cancelled && PastWait(s.runs[0].waiter) ==> AllHanded(c, s))
  }

  ghost predicate Inv(c: Config, s: State) {
    && RunsOK(c, s)
    && LedgerOK(c, s)
    && SlotsOK(c, s)
    && SelectorsOK(c, s)
    && WorkersOK(c, s)
    && WakeOK(c, s)
    && OutcomeOK(c, s)
  }

  // ---------------------------------------------------------------- what one step moves

  /** The change of a global count by one step: only selecting, handing over, granting, releasing and
      finishing a write change one. */
  function RunMoved(c: Config, s: State, r: nat, act: RunAct, t: Token): int
    requires HasRun(s, r) && RunEnabled(c, s, r, act)
  {
    match act
    case Select => if t.Held? && s.totalSelected < c.nPiece && s.lastSelected == t.piece then 1 else 0
    case WriteDone => if t == Busy(s.runs[r].writer.piece) then -1 else 0
    case _ => 0
  }

  function WorkerMoved(c: Config, s: State, r: nat, w: nat, act: WorkerAct, t: Token): int
    requires HasWorker(s, r, w) && WorkerEnabled(c, s, r, w, act)
  {
    var x := s.runs[r].workers[w];
    match act
    case HandOver(_) => if t == Held(x.piece) then -1 else if t == Busy(x.piece) then 1 else 0
    case Release => if t == Slot(x.peer) then -1 else 0
    case _ => 0
  }

  function SelectorMoved(c: Config, s: State, r: nat, act: SelectorAct, t: Token): int
    requires HasRun(s, r) && SelectorEnabled(c, s, r, act)
  {
    if act.Grant? && t == Slot(s.runs[r].selector.peer) then 1 else 0
  }

  lemma FreshRunBears(c: Config, t: Token)
    ensures RunBears(FreshRun(c), t) == 0
  {
    WorkersBearNone(FreshRun(c).workers, t);
  }

  lemma RunStepMoves(c: Config, s: State, r: nat, act: RunAct, t: Token)
    requires HasRun(s, r) && RunEnabled(c, s, r, act) && !t.Seat? && !t.Member?
    ensures RunsBear(RunApply(c, s, r, act).runs, t) == RunsBear(s.runs, t) + RunMoved(c, s, r, act, t)
  {
    RunsBearUpdate(s.runs, r, RunAfter(c, s, r, act), t);
    if act.Send? {
      JobsBearAppend(s.runs[r].jobs, s.runs[r].dispatcher.job, t);
    }
  }

  /** The rest of its own run keeps its waiter, its dispatcher's fate and its other workers. */
  lemma OwnRunShape(c: Config, s: State, r: nat, w: nat, act: WorkerAct)
    requires HasWorker(s, r, w) && WorkerEnabled(c, s, r, w, act)
    ensures var run, own := s.runs[r], OwnRunAfter(c, s, r, w, act);
            && own.workers == run.workers[w := WorkerAfter(c, s, r, w, act)]
            && own.cancelled == run.cancelled && own.shuttingDown == run.shuttingDown && own.waiter == run.waiter
            && own.selector == run.selector && own.writer == run.writer
            && own.jobs == (if act.Take? then run.jobs[1..] else run.jobs)
            && own.dispatcher == (if act.Signal? then Selecting else run.dispatcher)
            && own.waitCount == run.waitCount + One(act.Register?) - One(act.Retire?)
  {
    hide WorkerAfter;
  }

  /** What a worker bears less or more after its step; a job taken is borne by the worker from then on. */
  lemma WorkerTokenMoves(c: Config, s: State, r: nat, w: nat, act: WorkerAct, t: Token)
    requires HasWorker(s, r, w) && WorkerEnabled(c, s, r, w, act) && !t.Seat? && !t.Member?
    ensures var x := s.runs[r].workers[w];
            WorkerBears(WorkerAfter(c, s, r, w, act), t)
            == WorkerBears(x, t)
               + (match act
                  case Take => One(t.Held? && s.runs[r].jobs[0] == Some(t.piece))
                  case HandOver(_) => if t == Held(x.piece) then -1 else 0
                  case Release => if t == Slot(x.peer) then -1 else 0
                  case _ => 0)
  {
    match t
    case Held(_) =>
    case _ =>
  }

  lemma OwnRunMoves(c: Config, s: State, r: nat, w: nat, act: WorkerAct, t: Token)
    requires HasWorker(s, r, w) && WorkerEnabled(c, s, r, w, act) && !t.Seat? && !t.Member?
    ensures var x := s.runs[r].workers[w];
            RunsBear(SetRun(s, r, OwnRunAfter(c, s, r, w, act)).runs, t)
            == RunsBear(s.runs, t)
               + (match act
                  case HandOver(_) => if t == Held(x.piece) then -1 else 0
                  case Release => if t == Slot(x.peer) then -1 else 0
                  case _ => 0)
  {
    assert act.Take? ==> s.runs[r].jobs != [];
    WorkerTokenMoves(c, s, r, w, act, t);
    OwnRunShape(c, s, r, w, act);
    hide OwnRunAfter, WorkerAfter, WorkersBear, RunsBear, WorkerBears;
    WorkerStepBears(s, r, w, WorkerAfter(c, s, r, w, act), OwnRunAfter(c, s, r, w, act), t);
  }

  lemma WorkerStepMoves(c: Config, s: State, r: nat, w: nat, act: WorkerAct, t: Token)
    requires HasWorker(s, r, w) && WorkerEnabled(c, s, r, w, act) && !t.Seat? && !t.Member?
    ensures RunsBear(WorkerApply(c, s, r, w, act).runs, t) == RunsBear(s.runs, t) + WorkerMoved(c, s, r, w, act, t)
  {
    hide OwnRunAfter, WorkerAfter, RunsBear, WorkersBear, WorkerBears;
    var x := s.runs[r].workers[w];
    var mid := SetRun(s, r, OwnRunAfter(c, s, r, w, act));
    OwnRunShape(c, s, r, w, act);
    OwnRunMoves(c, s, r, w, act, t);
    match act
    case Request(to) => SetSelectorBears(mid, to, Locking(PeerRequest(r, w, x.piece)), t);
    case HandOver(to) => SetWriterBears(mid, to, Writing(x.piece), t);
    case Alert(Some(k)) => SetSelectorBears(mid, k, Locking(s.runs[k].selector.request), t);
    case _ =>
  }

  lemma SelectorStepMoves(c: Config, s: State, r: nat, act: SelectorAct, t: Token)
    requires HasRun(s, r) && SelectorEnabled(c, s, r, act) && !t.Seat? && !t.Member?
    ensures RunsBear(SelectorApply(c, s, r, act).runs, t) == RunsBear(s.runs, t) + SelectorMoved(c, s, r, act, t)
  {
    var x := s.runs[r].selector;
    SetSelectorBears(s, r, SelectorAfter(c, s, r, act), t);
    if act.Respond? {
      SetWorkerBears(SetSelector(s, r, Idle), x.request.run, x.request.worker,
                     Downloading(x.request.piece, x.peer), t);
    }
  }
}
