/** How much work a lone run has left: a number that every useful step lowers. */
module ProtocolWork {
  import opened Common
  import opened Protocol
  import opened ProtocolLedger
  import opened ProtocolInvariant
  import opened ProtocolSafety
  import opened ProtocolProgress

  /** A selected piece still needs a job, a request, a scan, a download and a hand-over. */
  function JobWork(c: Config, job: Option<nat>): nat {
    if job.Some? then 2 * |c.peers| + 16 else 0
  }

  function WorkerWork(c: Config, x: Worker): nat {
    match x
    case Gone(_) => 0
    case Retiring(_) => 1
    case Waiting => 2
    case Signalling => 5
    case Unstarted => 6
    case Released => |c.peers| + 8
    case Releasing(_) => |c.peers| + 9
    case HandingOver(_, _) => |c.peers| + 11
    case Downloading(_, _) => |c.peers| + 12
    case AwaitingPeer(_) => |c.peers| + 12
    case Requesting(_) => 2 * |c.peers| + 17
  }

  function WorkersWork(c: Config, ws: seq<Worker>): nat {
    if ws == [] then 0 else WorkerWork(c, ws[0]) + WorkersWork(c, ws[1..])
  }

  function JobsWork(c: Config, jobs: seq<Option<nat>>): nat {
    if jobs == [] then 0 else JobWork(c, jobs[0]) + JobsWork(c, jobs[1..])
  }

  function DispatcherWork(c: Config, d: Dispatcher): nat {
    match d
    case Ended => 0
    case Ready => 1
    case Sending(job) => 2 + JobWork(c, job)
    case Selecting => 3
  }

  function WaiterWork(x: Waiter): nat {
    match x
    case Over(_) => 0
    case MainStopped(_) => 1
    case ChildrenStopped(_) => 2
    case Passed(_) => 3
    case AtWait(_) => 4
    case Absent => 5
  }

  function SelectorWork(c: Config, x: Selector): nat {
    match x
    case Stopped => 0
    case Idle => 1
    case Granted(_, _) => 2
    case Found(_, _) => 3
    case Parked(_) => 3
    case Scanning(_, todo) => 4 + |todo|
    case Locking(_) => 5 + |c.peers|
  }

  function WriterWork(x: Writer): nat {
    match x
    case Closed => 0
    case Free => 1
    case Writing(_) => 2
  }

  function RunWork(c: Config, run: Run): nat {
    WorkersWork(c, run.workers) + JobsWork(c, run.jobs) + DispatcherWork(c, run.dispatcher)
    + WaiterWork(run.waiter) + SelectorWork(c, run.selector) + WriterWork(run.writer)
  }

  function UnselectedWork(c: Config, s: State): nat {
    JobWork(c, Some(0)) * if s.totalSelected <= c.nPiece then c.nPiece - s.totalSelected else 0
  }

  /** Before the run is started, the work is that of a fresh one. */
  function Work(c: Config, s: State): nat {
    UnselectedWork(c, s) + RunWork(c, if s.runs == [] then FreshRun(c) else s.runs[0])
  }

  lemma {:induction false} WorkersWorkUpdate(c: Config, ws: seq<Worker>, w: nat, x: Worker)
    requires w < |ws|
    ensures WorkersWork(c, ws[w := x]) == WorkersWork(c, ws) - WorkerWork(c, ws[w]) + WorkerWork(c, x)
  {
    if w == 0 {
      assert ws[0 := x][1..] == ws[1..];
    } else {
      assert ws[w := x][1..] == ws[1..][w - 1 := x];
      WorkersWorkUpdate(c, ws[1..], w - 1, x);
    }
  }

  lemma {:induction false} JobsWorkAppend(c: Config, jobs: seq<Option<nat>>, job: Option<nat>)
    ensures JobsWork(c, jobs + [job]) == JobsWork(c, jobs) + JobWork(c, job)
  {
    if jobs == [] {
      assert [job][1..] == [];
    } else {
      assert (jobs + [job])[1..] == jobs[1..] + [job];
      JobsWorkAppend(c, jobs[1..], job);
    }
  }

  lemma JobPrices(c: Config, job: Option<nat>)
    requires job.Some?
    ensures JobWork(c, job) == JobWork(c, Some(0)) && JobWork(c, None) == 0
  {}

  lemma SelectLowersWork(c: Config, s: State)
    requires Inv(c, s) && Lone(s) && RunEnabled(c, s, 0, Select)
    ensures Work(c, RunApply(c, s, 0, Select)) < Work(c, s)
  {
    hide JobWork, WorkersWork, JobsWork, SelectorWork, WriterWork;
    JobPrices(c, Some(s.lastSelected));
    var next := RunApply(c, s, 0, Select);
    assert WaiterWork(next.runs[0].waiter) <= WaiterWork(s.runs[0].waiter);
    if s.totalSelected < c.nPiece {
      var left, price := c.nPiece - s.totalSelected, JobWork(c, Some(0));
      assert price * left == price * (left - 1) + price;
      assert UnselectedWork(c, next) == price * (left - 1);
    }
  }

  lemma RunStepLowersWork(c: Config, s: State, act: RunAct)
    requires Inv(c, s) && Lone(s) && RunEnabled(c, s, 0, act) && !act.Cancel?
    ensures Work(c, RunApply(c, s, 0, act)) < Work(c, s)
  {
    hide JobWork, WorkersWork, JobsWork;
    if act.Select? {
      SelectLowersWork(c, s);
    } else {
      assert RunOK(c, s.runs[0]);
      if act.Send? {
        JobsWorkAppend(c, s.runs[0].jobs, s.runs[0].dispatcher.job);
      }
    }
  }

  /** By how much at least a worker's own step lowers the work of its run. */
  function Toll(c: Config, act: WorkerAct): nat {
    match act
    case Request(_) => |c.peers| + 5
    case HandOver(_) => 2
    case Alert(_) => |c.peers| + 3
    case _ => 1
  }

  lemma WorkerGoesDown(c: Config, s: State, w: nat, act: WorkerAct)
    requires Lone(s) && HasWorker(s, 0, w) && WorkerEnabled(c, s, 0, w, act)
    ensures WorkerWork(c, WorkerAfter(c, s, 0, w, act)) + Toll(c, act) + (if act.Signal? then 2 else 0)
            <= WorkerWork(c, s.runs[0].workers[w]) + if act.Take? then JobWork(c, s.runs[0].jobs[0]) else 0
  {
    match act
    case Take =>
    case Quit =>
    case _ =>
  }

  lemma OwnRunGoesDown(c: Config, s: State, w: nat, act: WorkerAct)
    requires Lone(s) && HasWorker(s, 0, w) && WorkerEnabled(c, s, 0, w, act) && !act.Quit?
    ensures RunWork(c, OwnRunAfter(c, s, 0, w, act)) + Toll(c, act) <= RunWork(c, s.runs[0])
  {
    WorkerGoesDown(c, s, w, act);
    WorkersWorkUpdate(c, s.runs[0].workers, w, WorkerAfter(c, s, 0, w, act));
    hide WorkerWork, WorkersWork, JobWork, WorkerAfter;
  }

  lemma WorkerStepLowersWork(c: Config, s: State, w: nat, act: WorkerAct)
    requires Lone(s) && HasWorker(s, 0, w) && WorkerEnabled(c, s, 0, w, act)
    ensures Work(c, WorkerApply(c, s, 0, w, act)) < Work(c, s)
  {
    var own, next := OwnRunAfter(c, s, 0, w, act), WorkerApply(c, s, 0, w, act).runs[0];
    OwnRunGoesDown(c, s, w, act);
    assert own.selector == s.runs[0].selector && own.writer == s.runs[0].writer;
    hide OwnRunAfter, WorkersWork, JobsWork, DispatcherWork, WaiterWork;
    assert next == own.(selector := next.selector, writer := next.writer);
  }

  lemma SelectorGoesDown(c: Config, s: State, act: SelectorAct)
    requires Lone(s) && SelectorEnabled(c, s, 0, act) && !act.StrayAlert?
    ensures SelectorWork(c, SelectorAfter(c, s, 0, act)) < SelectorWork(c, s.runs[0].selector)
  {
    match act
    case Test(p) => assert |s.runs[0].selector.todo - {p}| == |s.runs[0].selector.todo| - 1;
    case _ =>
  }

  lemma SelectorStepLowersWork(c: Config, s: State, act: SelectorAct)
    requires Lone(s) && SelectorEnabled(c, s, 0, act) && !act.StrayAlert?
    ensures Work(c, SelectorApply(c, s, 0, act)) < Work(c, s)
  {
    var run, next := s.runs[0], SelectorApply(c, s, 0, act).runs[0];
    var x := run.selector;
    SelectorGoesDown(c, s, act);
    if act.Respond? {
      WorkersWorkUpdate(c, run.workers, x.request.worker, Downloading(x.request.piece, x.peer));
      assert next.workers == run.workers[x.request.worker := Downloading(x.request.piece, x.peer)];
      assert next == run.(selector := next.selector, workers := next.workers);
    } else {
      assert next == run.(selector := next.selector);
    }
  }

  /** Every useful step of a lone run lowers the work left. */
  lemma UsefulLowersWork(c: Config, s: State, step: Step)
    requires Inv(c, s) && Lone(s) && Enabled(c, s, step) && Useful(step)
    ensures Work(c, Apply(c, s, step)) < Work(c, s)
  {
    match step
    case ByRun(_, act) => RunStepLowersWork(c, s, act);
    case ByWorker(_, w, act) => WorkerStepLowersWork(c, s, w, act);
    case BySelector(_, act) => SelectorStepLowersWork(c, s, act);
  }

  function StrayPrice(c: Config): nat {
    |c.peers| + 2
  }

  /** A stray signal costs at most one more scan of the peers. */
  lemma StrayRaisesWork(c: Config, s: State, step: Step)
    requires Inv(c, s) && |s.runs| <= 1 && Enabled(c, s, step) && !Useful(step) && |Apply(c, s, step).runs| <= 1
    ensures Work(c, Apply(c, s, step))
            <= Work(c, s) + if step.BySelector? then StrayPrice(c) else 0
  {
    hide WorkersWork, JobsWork, JobWork;
  }

  /** No run yet, or one that is not cancelled. */
  predicate AtMostOne(s: State) {
    s.runs == [] || Lone(s)
  }

  function Strays(step: Step): nat {
    if step.BySelector? && step.selectorAct.StrayAlert? then 1 else 0
  }

  lemma StepWork(c: Config, s: State, step: Step)
    requires Inv(c, s) && Enabled(c, s, step) && AtMostOne(s) && AtMostOne(Apply(c, s, step))
    ensures Work(c, Apply(c, s, step)) + One(Useful(step)) <= Work(c, s) + StrayPrice(c) * Strays(step)
  {
    hide Work;
    if Useful(step) {
      UsefulLowersWork(c, s, step);
    } else {
      StrayRaisesWork(c, s, step);
    }
  }

  lemma WorkerStepKeepsCancel(c: Config, s: State, r: nat, w: nat, act: WorkerAct, k: nat)
    requires HasWorker(s, r, w) && WorkerEnabled(c, s, r, w, act) && HasRun(s, k)
    ensures var next := WorkerApply(c, s, r, w, act);
            |next.runs| == |s.runs| && next.runs[k].cancelled == s.runs[k].cancelled
  {
    hide WorkerApply, OwnRunAfter, WorkerEnabled, SelectorThen;
    WorkerStepShape(c, s, r, w, act, k);
    OwnRunShape(c, s, r, w, act);
  }

  lemma SelectorStepKeepsCancel(c: Config, s: State, r: nat, act: SelectorAct, k: nat)
    requires HasRun(s, r) && SelectorEnabled(c, s, r, act) && HasRun(s, k)
    ensures var next := SelectorApply(c, s, r, act);
            |next.runs| == |s.runs| && next.runs[k].cancelled == s.runs[k].cancelled
  {
    SelectorStepShape(c, s, r, act, k);
  }

  lemma RunStaysCancelled(c: Config, s: State, r: nat, act: RunAct)
    requires HasRun(s, r) && RunEnabled(c, s, r, act) && s.runs[r].cancelled
    ensures RunAfter(c, s, r, act).cancelled
  {}

  /** Runs are never removed, and stay cancelled. */
  lemma AtMostOneBefore(c: Config, s: State, step: Step)
    requires Enabled(c, s, step) && AtMostOne(Apply(c, s, step))
    ensures AtMostOne(s)
  {
    hide WorkerApply, SelectorApply, RunAfter;
    var next := Apply(c, s, step);
    match step
    case Start => assert next.runs == s.runs + [FreshRun(c)];
    case ByRun(r, act) =>
      assert |next.runs| == |s.runs| && next.runs[r] == RunAfter(c, s, r, act);
      if s.runs[r].cancelled {
        RunStaysCancelled(c, s, r, act);
      }
    case ByWorker(r, w, act) => WorkerStepKeepsCancel(c, s, r, w, act, 0);
    case BySelector(r, act) => SelectorStepKeepsCancel(c, s, r, act, 0);
  }

  lemma UsefulStaysLone(c: Config, s: State, step: Step)
    requires Enabled(c, s, step) && Useful(step) && Lone(s)
    ensures Lone(Apply(c, s, step))
  {
    hide WorkerApply, SelectorApply;
    var next := Apply(c, s, step);
    match step
    case ByRun(r, act) => assert |next.runs| == 1 && next.runs[0] == RunAfter(c, s, 0, act);
    case ByWorker(r, w, act) => WorkerStepKeepsCancel(c, s, r, w, act, 0);
    case BySelector(r, act) => SelectorStepKeepsCancel(c, s, r, act, 0);
  }
}
