/** The download engine as goroutines that meet over channels, a wait group, a mutex with a condition
    variable, and one slot counter per peer. A step is one indivisible action of one goroutine, or one
    rendezvous on an unbuffered channel. A restart adds a run; nothing stops the runs before it. */
module Protocol {
  import opened Common

  const MAX_PIECE_PER_PEER := 3

  /** The peer set, their choke flags and bitfields are fixed: `offers` holds the pairs (peer, piece) for
      which the peer is not choking and has the piece. */
  datatype Config = Config(nPiece: nat, nWorker: nat, peers: set<nat>, offers: set<(nat, nat)>)

  /** The body of one worker goroutine, by the action it is about to take. */
  datatype Worker =
    | Unstarted                                  // before workerWaitGroup.Add(1)
    | Signalling                                 // at signalChan <- i
    | Waiting                                    // in the select over ctx2.Done and downloadJobChan
    | Requesting(piece: nat)                     // at peerChan <- peerRequest
    | AwaitingPeer(piece: nat)                   // at <-peerRequest.response
    | Downloading(piece: nat, peer: nat)         // in piece.download(peer)
    | HandingOver(piece: nat, peer: nat)         // at writerChan <- piece
    | Releasing(peer: nat)                       // at AddInt64(&peer.IsFree, -1)
    | Released                                   // before the locked Signal
    | Retiring(cancelled: bool)                  // at workerWaitGroup.Done()
    | Gone(cancelled: bool)

  datatype Dispatcher = Ready | Selecting | Sending(job: Option<nat>) | Ended

  /** The goroutine that waits for the workers and reports the outcome. */
  datatype Waiter =
    | Absent
    | AtWait(completed: bool)
    | Passed(completed: bool)
    | ChildrenStopped(completed: bool)
    | MainStopped(completed: bool)
    | Over(completed: bool)

  datatype PeerRequest = PeerRequest(run: nat, worker: nat, piece: nat)

  datatype Selector =
    | Idle
    | Locking(request: PeerRequest)
    | Scanning(request: PeerRequest, todo: set<nat>)
    | Found(request: PeerRequest, peer: nat)
    | Granted(request: PeerRequest, peer: nat)
    | Parked(request: PeerRequest)
    | Stopped

  datatype Writer = Free | Writing(piece: nat) | Closed

  datatype Run = Run(
    cancelled: bool,
    shuttingDown: bool,
    jobs: seq<Option<nat>>,
    workers: seq<Worker>,
    waitCount: int,
    dispatcher: Dispatcher,
    waiter: Waiter,
    selector: Selector,
    writer: Writer)

  /** `handed` lists the pieces in the order in which a writer received them. */
  datatype State = State(
    lastSelected: nat,
    totalSelected: nat,
    runs: seq<Run>,
    isFree: map<nat, int>,
    lock: Option<nat>,
    handed: seq<nat>)

  /** Steps of the dispatcher, the waiter, the writer and the controlling context of one run. */
  datatype RunAct =
    | Cancel | NoticeCancel | Select | Send | EndDispatcher
    | PassWait | StopChildren | StopMain | Post
    | WriteDone | StopWriter

  /** Steps of one worker. `to` is the run whose selector or writer takes the value; `woken` is the run
      whose parked selector the Signal wakes. */
  datatype WorkerAct =
    | Register | Signal | Take | Quit | Retire
    | Request(to: nat) | Finish | HandOver(to: nat) | Release | Alert(woken: Option<nat>)

  datatype SelectorAct = Lock | Test(peer: nat) | Grant | Respond | Park | StrayAlert | StopSelector

  datatype Step =
    | Start
    | ByRun(run: nat, runAct: RunAct)
    | ByWorker(run: nat, worker: nat, workerAct: WorkerAct)
    | BySelector(run: nat, selectorAct: SelectorAct)

  // ---------------------------------------------------------------- initial values

  function FreshRun(c: Config): Run {
    Run(false, false, [], seq(c.nWorker, _ => Unstarted), 0, Ready, Absent, Idle, Free)
  }

  function Initial(c: Config): State {
    State(0, 0, [], map p | p in c.peers :: 0, None, [])
  }

  // ---------------------------------------------------------------- reading the state

  predicate HasRun(s: State, r: nat) {
    r < |s.runs|
  }

  predicate HasWorker(s: State, r: nat, w: nat) {
    r < |s.runs| && w < |s.runs[r].workers|
  }

  /** peer.isAvailable: the slot test is an equality. */
  predicate Available(c: Config, s: State, p: nat, i: nat) {
    (p, i) in c.offers && p in s.isFree && s.isFree[p] != MAX_PIECE_PER_PEER
  }

  predicate ChildrenCancelled(run: Run) {
    run.waiter.ChildrenStopped? || run.waiter.MainStopped? || run.waiter.Over?
  }

  predicate LocalCancelled(run: Run) {
    run.waiter.MainStopped? || run.waiter.Over?
  }

  // ---------------------------------------------------------------- writing the state

  function SetRun(s: State, r: nat, run: Run): State
    requires HasRun(s, r)
  {
    s.(runs := s.runs[r := run])
  }

  function SetWorker(s: State, r: nat, w: nat, x: Worker): State
    requires HasWorker(s, r, w)
  {
    SetRun(s, r, s.runs[r].(workers := s.runs[r].workers[w := x]))
  }

  function SetSelector(s: State, r: nat, x: Selector): State
    requires HasRun(s, r)
  {
    SetRun(s, r, s.runs[r].(selector := x))
  }

  function SetWriter(s: State, r: nat, x: Writer): State
    requires HasRun(s, r)
  {
    SetRun(s, r, s.runs[r].(writer := x))
  }

  // ---------------------------------------------------------------- selection

  /** What selectPiece answers in sequential mode, and the two counters it leaves. */
  datatype Selection = Selection(job: Option<nat>, completed: bool, last: nat, total: nat)

  function SelectPiece(last: nat, total: nat, nPiece: nat): Selection {
    if total >= nPiece then Selection(None, true, last, total)
    else Selection(Some(last), false, last + 1, total + 1)
  }

  /** The waiter is spawned once: at the first selection that reports completion or follows a noticed
      cancellation. */
  function AfterSelect(run: Run, pick: Selection): Run {
    run.(dispatcher := Sending(pick.job),
         waiter := if (pick.completed || run.shuttingDown) && run.waiter.Absent? then AtWait(pick.completed)
                   else run.waiter)
  }

  // ---------------------------------------------------------------- steps

  predicate RunEnabled(c: Config, s: State, r: nat, act: RunAct)
    requires HasRun(s, r)
  {
    var run := s.runs[r];
    match act
    case Cancel => true
    case NoticeCancel => run.cancelled && run.dispatcher.Ready?
    case Select => run.dispatcher.Selecting?
    case Send => run.dispatcher.Sending? && |run.jobs| < c.nWorker
    case EndDispatcher => run.dispatcher.Ready? && LocalCancelled(run)
    case PassWait => run.waiter.AtWait? && run.waitCount == 0
    case StopChildren => run.waiter.Passed?
    case StopMain => run.waiter.ChildrenStopped?
    case Post => run.waiter.MainStopped?
    case WriteDone => run.writer.Writing?
    case StopWriter => run.writer.Free? && ChildrenCancelled(run)
  }

  function RunAfter(c: Config, s: State, r: nat, act: RunAct): Run
    requires HasRun(s, r) && RunEnabled(c, s, r, act)
  {
    var run := s.runs[r];
    match act
    case Cancel => run.(cancelled := true)
    case NoticeCancel => run.(shuttingDown := true)
    case Select => AfterSelect(run, SelectPiece(s.lastSelected, s.totalSelected, c.nPiece))
    case Send => run.(jobs := run.jobs + [run.dispatcher.job], dispatcher := Ready)
    case EndDispatcher => run.(dispatcher := Ended)
    case PassWait => run.(waiter := Passed(run.waiter.completed))
    case StopChildren => run.(waiter := ChildrenStopped(run.waiter.completed))
    case StopMain => run.(waiter := MainStopped(run.waiter.completed))
    case Post => run.(waiter := Over(run.waiter.completed))
    case WriteDone => run.(writer := Free)
    case StopWriter => run.(writer := Closed)
  }

  function RunApply(c: Config, s: State, r: nat, act: RunAct): State
    requires HasRun(s, r) && RunEnabled(c, s, r, act)
  {
    var next := SetRun(s, r, RunAfter(c, s, r, act));
    if act.Select? then
      var pick := SelectPiece(s.lastSelected, s.totalSelected, c.nPiece);
      next.(lastSelected := pick.last, totalSelected := pick.total)
    else
      next
  }

  predicate WorkerEnabled(c: Config, s: State, r: nat, w: nat, act: WorkerAct)
    requires HasWorker(s, r, w)
  {
    var run := s.runs[r];
    var x := run.workers[w];
    match act
    case Register => x.Unstarted?
    case Signal => x.Signalling? && run.dispatcher.Ready?
    case Take => x.Waiting? && run.jobs != []
    case Quit => x.Waiting? && run.cancelled
    case Retire => x.Retiring?
    case Request(to) => x.Requesting? && HasRun(s, to) && s.runs[to].selector.Idle?
    case Finish => x.Downloading?
    case HandOver(to) => x.HandingOver? && HasRun(s, to) && s.runs[to].writer.Free?
    case Release => x.Releasing? && x.peer in s.isFree
    case Alert(woken) =>
      x.Released? && s.lock.None?
      && (match woken
          case None => forall k :: 0 <= k < |s.runs| ==> !s.runs[k].selector.Parked?
          case Some(k) => HasRun(s, k) && s.runs[k].selector.Parked?)
  }

  /** The state the acting worker is left in. */
  function WorkerAfter(c: Config, s: State, r: nat, w: nat, act: WorkerAct): Worker
    requires HasWorker(s, r, w) && WorkerEnabled(c, s, r, w, act)
  {
    var x := s.runs[r].workers[w];
    match act
    case Register => Signalling
    case Signal => Waiting
    case Take => (match s.runs[r].jobs[0] case None => Retiring(false) case Some(i) => Requesting(i))
    case Quit => Retiring(true)
    case Retire => Gone(x.cancelled)
    case Request(_) => AwaitingPeer(x.piece)
    case Finish => HandingOver(x.piece, x.peer)
    case HandOver(_) => Releasing(x.peer)
    case Release => Released
    case Alert(_) => Signalling
  }

  /** The acting worker's own run after the step. */
  function OwnRunAfter(c: Config, s: State, r: nat, w: nat, act: WorkerAct): Run
    requires HasWorker(s, r, w) && WorkerEnabled(c, s, r, w, act)
  {
    var run := s.runs[r].(workers := s.runs[r].workers[w := WorkerAfter(c, s, r, w, act)]);
    match act
    case Register => run.(waitCount := run.waitCount + 1)
    case Signal => run.(dispatcher := Selecting)
    case Take => run.(jobs := run.jobs[1..])
    case Retire => run.(waitCount := run.waitCount - 1)
    case _ => run
  }

  function WorkerApply(c: Config, s: State, r: nat, w: nat, act: WorkerAct): State
    requires HasWorker(s, r, w) && WorkerEnabled(c, s, r, w, act)
  {
    var x := s.runs[r].workers[w];
    var next := SetRun(s, r, OwnRunAfter(c, s, r, w, act));
    match act
    case Request(to) => SetSelector(next, to, Locking(PeerRequest(r, w, x.piece)))
    case HandOver(to) => SetWriter(next, to, Writing(x.piece)).(handed := s.handed + [x.piece])
    case Release => next.(isFree := s.isFree[x.peer := s.isFree[x.peer] - 1])
    case Alert(Some(k)) => SetSelector(next, k, Locking(s.runs[k].selector.request))
    case _ => next
  }

  predicate SelectorEnabled(c: Config, s: State, r: nat, act: SelectorAct)
    requires HasRun(s, r)
  {
    var x := s.runs[r].selector;
    match act
    case Lock => x.Locking? && s.lock.None?
    case Test(p) => x.Scanning? && p in x.todo
    case Grant => x.Found? && x.peer in s.isFree
    case Respond =>
      x.Granted? && HasWorker(s, x.request.run, x.request.worker)
      && s.runs[x.request.run].workers[x.request.worker] == AwaitingPeer(x.request.piece)
    case Park => x.Scanning? && x.todo == {}
    case StrayAlert => x.Parked?
    case StopSelector => x.Idle? && ChildrenCancelled(s.runs[r])
  }

  function SelectorAfter(c: Config, s: State, r: nat, act: SelectorAct): Selector
    requires HasRun(s, r) && SelectorEnabled(c, s, r, act)
  {
    var x := s.runs[r].selector;
    match act
    case Lock => Scanning(x.request, c.peers)
    case Test(p) =>
      if Available(c, s, p, x.request.piece) then Found(x.request, p) else Scanning(x.request, x.todo - {p})
    case Grant => Granted(x.request, x.peer)
    case Respond => Idle
    case Park => Parked(x.request)
    case StrayAlert => Locking(x.request)
    case StopSelector => Stopped
  }

  function SelectorApply(c: Config, s: State, r: nat, act: SelectorAct): State
    requires HasRun(s, r) && SelectorEnabled(c, s, r, act)
  {
    var x := s.runs[r].selector;
    var next := SetSelector(s, r, SelectorAfter(c, s, r, act));
    match act
    case Lock => next.(lock := Some(r))
    case Grant => next.(isFree := s.isFree[x.peer := s.isFree[x.peer] + 1])
    case Respond =>
      SetWorker(next, x.request.run, x.request.worker, Downloading(x.request.piece, x.peer)).(lock := None)
    case Park => next.(lock := None)
    case _ => next
  }

  predicate Enabled(c: Config, s: State, step: Step) {
    match step
    case Start => true
    case ByRun(r, act) => HasRun(s, r) && RunEnabled(c, s, r, act)
    case ByWorker(r, w, act) => HasWorker(s, r, w) && WorkerEnabled(c, s, r, w, act)
    case BySelector(r, act) => HasRun(s, r) && SelectorEnabled(c, s, r, act)
  }

  function Apply(c: Config, s: State, step: Step): State
    requires Enabled(c, s, step)
  {
    match step
    case Start => s.(runs := s.runs + [FreshRun(c)])
    case ByRun(r, act) => RunApply(c, s, r, act)
    case ByWorker(r, w, act) => WorkerApply(c, s, r, w, act)
    case BySelector(r, act) => SelectorApply(c, s, r, act)
  }

  // ---------------------------------------------------------------- runs of the system

  predicate Admissible(c: Config, steps: seq<Step>)
    decreases |steps|, 0
  {
    steps == []
    || (Admissible(c, steps[..|steps| - 1]) && Enabled(c, Execute(c, steps[..|steps| - 1]), steps[|steps| - 1]))
  }

  /** The state after an admissible sequence of steps. */
  function Execute(c: Config, steps: seq<Step>): State
    requires Admissible(c, steps)
    decreases |steps|, 1
  {
    if steps == [] then Initial(c)
    else Apply(c, Execute(c, steps[..|steps| - 1]), steps[|steps| - 1])
  }
}
