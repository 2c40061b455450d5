/** Counting what each goroutine, channel and counter holds. Every update of one worker, selector, writer or
    run changes the counts by exactly what left and what came. */
module ProtocolLedger {
  import opened Common
  import opened Protocol

  /** Held: a selected piece not yet handed over. Seat: a claim on one job. Member: counted by the wait group.
      Slot: one unit of a peer's IsFree. Busy: a piece whose write is under way. */
  datatype Token = Held(piece: nat) | Seat | Member | Slot(peer: nat) | Busy(piece: nat)

  function WorkerBears(x: Worker, t: Token): nat {
    match t
    case Held(i) =>
      One((x.Requesting? || x.AwaitingPeer? || x.Downloading? || x.HandingOver?) && x.piece == i)
    case Seat => One(x.Waiting? || ((x.Retiring? || x.Gone?) && x.cancelled))
    case Member => One(!x.Unstarted? && !x.Gone?)
    case Slot(p) => One((x.Downloading? || x.HandingOver? || x.Releasing?) && x.peer == p)
    case Busy(_) => 0
  }

  function WorkersBear(ws: seq<Worker>, t: Token): nat {
    if ws == [] then 0 else WorkerBears(ws[0], t) + WorkersBear(ws[1..], t)
  }

  function JobsBear(jobs: seq<Option<nat>>, t: Token): nat {
    if jobs == [] then 0 else One(t.Held? && jobs[0] == Some(t.piece)) + JobsBear(jobs[1..], t)
  }

  function DispatcherBears(d: Dispatcher, t: Token): nat {
    One(t.Held? && d.Sending? && d.job == Some(t.piece))
  }

  function SelectorBears(x: Selector, t: Token): nat {
    One(t.Slot? && x.Granted? && x.peer == t.peer)
  }

  function WriterBears(x: Writer, t: Token): nat {
    One(t.Busy? && x.Writing? && x.piece == t.piece)
  }

  function RunBears(run: Run, t: Token): nat {
    WorkersBear(run.workers, t) + JobsBear(run.jobs, t) + DispatcherBears(run.dispatcher, t)
    + SelectorBears(run.selector, t) + WriterBears(run.writer, t)
  }

  function RunsBear(runs: seq<Run>, t: Token): nat {
    if runs == [] then 0 else RunBears(runs[0], t) + RunsBear(runs[1..], t)
  }

  // ---------------------------------------------------------------- workers

  lemma {:induction false} WorkersBearUpdate(ws: seq<Worker>, w: nat, x: Worker, t: Token)
    requires w < |ws|
    ensures WorkersBear(ws[w := x], t) == WorkersBear(ws, t) - WorkerBears(ws[w], t) + WorkerBears(x, t)
  {
    if w == 0 {
      assert ws[0 := x][1..] == ws[1..];
    } else {
      assert ws[w := x][1..] == ws[1..][w - 1 := x];
      WorkersBearUpdate(ws[1..], w - 1, x, t);
    }
  }

  lemma {:induction false} WorkersBearBound(ws: seq<Worker>, t: Token)
    ensures WorkersBear(ws, t) <= |ws|
  {
    if ws != [] {
      WorkersBearBound(ws[1..], t);
    }
  }

  lemma {:induction false} WorkersBearOne(ws: seq<Worker>, w: nat, t: Token)
    requires w < |ws|
    ensures WorkersBear(ws, t) >= WorkerBears(ws[w], t)
  {
    if w > 0 {
      WorkersBearOne(ws[1..], w - 1, t);
    }
  }

  lemma {:induction false} WorkersBearNone(ws: seq<Worker>, t: Token)
    requires forall w :: 0 <= w < |ws| ==> WorkerBears(ws[w], t) == 0
    ensures WorkersBear(ws, t) == 0
  {
    if ws != [] {
      WorkersBearNone(ws[1..], t);
    }
  }

  // ---------------------------------------------------------------- jobs

  lemma {:induction false} JobsBearAppend(jobs: seq<Option<nat>>, job: Option<nat>, t: Token)
    ensures JobsBear(jobs + [job], t) == JobsBear(jobs, t) + One(t.Held? && job == Some(t.piece))
  {
    if jobs == [] {
      assert [job][1..] == [];
    } else {
      assert (jobs + [job])[1..] == jobs[1..] + [job];
      JobsBearAppend(jobs[1..], job, t);
    }
  }

  lemma {:induction false} JobsBearOne(jobs: seq<Option<nat>>, k: nat, t: Token)
    requires k < |jobs| && t.Held? && jobs[k] == Some(t.piece)
    ensures JobsBear(jobs, t) >= 1
  {
    if k > 0 {
      JobsBearOne(jobs[1..], k - 1, t);
    }
  }

  // ---------------------------------------------------------------- runs

  lemma {:induction false} RunsBearUpdate(runs: seq<Run>, r: nat, run: Run, t: Token)
    requires r < |runs|
    ensures RunsBear(runs[r := run], t) == RunsBear(runs, t) - RunBears(runs[r], t) + RunBears(run, t)
  {
    if r == 0 {
      assert runs[0 := run][1..] == runs[1..];
    } else {
      assert runs[r := run][1..] == runs[1..][r - 1 := run];
      RunsBearUpdate(runs[1..], r - 1, run, t);
    }
  }

  lemma {:induction false} RunsBearAppend(runs: seq<Run>, run: Run, t: Token)
    ensures RunsBear(runs + [run], t) == RunsBear(runs, t) + RunBears(run, t)
  {
    if runs == [] {
      assert [run][1..] == [];
    } else {
      assert (runs + [run])[1..] == runs[1..] + [run];
      RunsBearAppend(runs[1..], run, t);
    }
  }

  lemma {:induction false} RunsBearOne(runs: seq<Run>, r: nat, t: Token)
    requires r < |runs|
    ensures RunsBear(runs, t) >= RunBears(runs[r], t)
  {
    if r > 0 {
      RunsBearOne(runs[1..], r - 1, t);
    }
  }

  // ---------------------------------------------------------------- one component of a state

  lemma WorkerStepBears(s: State, r: nat, w: nat, x: Worker, run: Run, t: Token)
    requires HasWorker(s, r, w) && run.workers == s.runs[r].workers[w := x]
    ensures RunsBear(s.runs[r := run], t)
            == RunsBear(s.runs, t) - RunBears(s.runs[r], t) + RunBears(run, t)
    ensures WorkersBear(run.workers, t)
            == WorkersBear(s.runs[r].workers, t) - WorkerBears(s.runs[r].workers[w], t) + WorkerBears(x, t)
  {
    WorkersBearUpdate(s.runs[r].workers, w, x, t);
    RunsBearUpdate(s.runs, r, run, t);
  }

  lemma SetWorkerBears(s: State, r: nat, w: nat, x: Worker, t: Token)
    requires HasWorker(s, r, w)
    ensures RunsBear(SetWorker(s, r, w, x).runs, t)
            == RunsBear(s.runs, t) - WorkerBears(s.runs[r].workers[w], t) + WorkerBears(x, t)
  {
    WorkerStepBears(s, r, w, x, SetWorker(s, r, w, x).runs[r], t);
  }

  lemma SetSelectorBears(s: State, r: nat, x: Selector, t: Token)
    requires HasRun(s, r)
    ensures RunsBear(SetSelector(s, r, x).runs, t)
            == RunsBear(s.runs, t) - SelectorBears(s.runs[r].selector, t) + SelectorBears(x, t)
  {
    RunsBearUpdate(s.runs, r, s.runs[r].(selector := x), t);
  }

  lemma SetWriterBears(s: State, r: nat, x: Writer, t: Token)
    requires HasRun(s, r)
    ensures RunsBear(SetWriter(s, r, x).runs, t)
            == RunsBear(s.runs, t) - WriterBears(s.runs[r].writer, t) + WriterBears(x, t)
  {
    RunsBearUpdate(s.runs, r, s.runs[r].(writer := x), t);
  }
}
