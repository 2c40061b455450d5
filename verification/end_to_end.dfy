/** The whole engine: the goroutine protocol, one block pipeline per piece, and the writer's files. */
module EndToEnd {
  import opened Common
  import opened Torrents
  import opened Writers
  import opened Assembly
  import Blocks
  import Protocol
  import ProtocolLedger
  import ProtocolInvariant
  import ProtocolSafety
  import ProtocolTheorems
  import ProtocolCompletion
  import Pipeline
  import PipelineSafety
  import PipelineProgress

  /** A torrent, the worker count, and a fixed set of honest peers. `files` is what the disk held before. */
  datatype Setup = Setup(job: Job, nWorker: nat, peers: set<nat>, offers: set<(nat, nat)>, files: Files)

  datatype State = State(
    control: Protocol.State,
    downloads: seq<Pipeline.State>,
    files: Files,
    written: seq<nat>)

  datatype Step = Control(step: Protocol.Step) | Block(piece: nat, blockStep: Pipeline.Step)

  ghost predicate SetupOK(c: Setup) {
    JobOK(c.job)
  }

  function Config(c: Setup): Protocol.Config
    requires c.job.pieceLength > 0
  {
    Protocol.Config(NumPieces(c.job), c.nWorker, c.peers, c.offers)
  }

  function Initial(c: Setup): State
    requires c.job.pieceLength > 0
  {
    State(Protocol.Initial(Config(c)), seq(NumPieces(c.job), _ => Pipeline.Initial()), c.files, [])
  }

  /** Some worker runs piece.download for piece i. */
  ghost predicate InDownload(s: Protocol.State, i: nat) {
    exists r: nat, w: nat ::
      Protocol.HasWorker(s, r, w) && s.runs[r].workers[w].Downloading? && s.runs[r].workers[w].piece == i
  }

  predicate ByLoop(step: Pipeline.Step) {
    step.Begin? || step.Ask? || step.Write? || step.Count? || step.Leave?
  }

  predicate IsFinish(step: Protocol.Step) {
    step.ByWorker? && step.workerAct.Finish?
  }

  predicate IsWriteDone(step: Protocol.Step) {
    step.ByRun? && step.runAct.WriteDone?
  }

  /** A worker leaves download only once its loop has returned; the loop of a piece moves only while a
      worker is in it, the peer and the router at any time. */
  ghost predicate Enabled(c: Setup, s: State, step: Step)
    requires c.job.pieceLength > 0
  {
    match step
    case Control(p) =>
      && Protocol.Enabled(Config(c), s.control, p)
      && (IsFinish(p) ==>
            var i := s.control.runs[p.run].workers[p.worker].piece;
            i < |s.downloads| && s.downloads[i].loop.Returned?)
      && (IsWriteDone(p) ==> s.control.runs[p.run].writer.piece < |s.downloads|)
    case Block(i, b) =>
      && i < |s.downloads| && Pipeline.Enabled(PieceBytes(c.job, i), s.downloads[i], b)
      && (ByLoop(b) ==> InDownload(s.control, i))
  }

  ghost function Apply(c: Setup, s: State, step: Step): State
    requires c.job.pieceLength > 0 && Enabled(c, s, step)
  {
    match step
    case Control(p) =>
      var next := s.(control := Protocol.Apply(Config(c), s.control, p));
      if IsWriteDone(p) then
        var i := s.control.runs[p.run].writer.piece;
        next.(files := PieceWrite(s.files, PieceFrom(c.job, i), s.downloads[i].buffer, c.job.segments),
              written := s.written + [i])
      else next
    case Block(i, b) =>
      s.(downloads := s.downloads[i := Pipeline.Apply(PieceBytes(c.job, i), s.downloads[i], b)])
  }

  ghost predicate Admissible(c: Setup, steps: seq<Step>)
    requires c.job.pieceLength > 0
    decreases |steps|, 0
  {
    steps == []
    || (Admissible(c, steps[..|steps| - 1]) && Enabled(c, Execute(c, steps[..|steps| - 1]), steps[|steps| - 1]))
  }

  ghost function Execute(c: Setup, steps: seq<Step>): State
    requires c.job.pieceLength > 0 && Admissible(c, steps)
    decreases |steps|, 1
  {
    if steps == [] then Initial(c)
    else Apply(c, Execute(c, steps[..|steps| - 1]), steps[|steps| - 1])
  }

  // ---------------------------------------------------------------- the invariant

  ghost predicate DownloadOK(c: Setup, s: State, i: nat)
    requires i < |s.downloads|
  {
    PieceOK(PieceBytes(c.job, i), s.downloads[i])
  }

  ghost predicate DownloadsOK(c: Setup, s: State)
    requires c.job.pieceLength > 0
  {
    |s.downloads| == NumPieces(c.job) && forall i: nat :: i < |s.downloads| ==> DownloadOK(c, s, i)
  }

  ghost predicate Fetched(s: State, i: nat) {
    i < |s.downloads| && s.downloads[i].loop.Returned?
  }

  /** A piece leaves its worker, and reaches a writer, only after its download returned. */
  ghost predicate HandedOK(s: State) {
    && (forall i :: i in s.control.handed ==> Fetched(s, i))
    && (forall r: nat, w: nat :: Protocol.HasWorker(s.control, r, w) && s.control.runs[r].workers[w].HandingOver? ==>
          Fetched(s, s.control.runs[r].workers[w].piece))
  }

  ghost predicate FilesOK(c: Setup, s: State) {
    && s.files == WriteAll(c.files, c.job, s.written)
    && forall i: nat ::
         multiset(s.written)[i] + ProtocolLedger.RunsBear(s.control.runs, ProtocolLedger.Busy(i))
         == multiset(s.control.handed)[i]
  }

  ghost predicate Inv(c: Setup, s: State)
    requires c.job.pieceLength > 0
  {
    ProtocolInvariant.Inv(Config(c), s.control) && DownloadsOK(c, s) && HandedOK(s) && FilesOK(c, s)
  }

  /** The part of the invariant that is about one download. */
  ghost predicate PieceOK(source: seq<byte>, d: Pipeline.State) {
    PipelineSafety.Inv(source, d) && (!PipelineProgress.Fits(source) ==> PipelineProgress.Stuck(d))
  }

  lemma PieceStepKeepsOK(source: seq<byte>, d: Pipeline.State, b: Pipeline.Step)
    requires PieceOK(source, d) && Pipeline.Enabled(source, d, b)
    ensures PieceOK(source, Pipeline.Apply(source, d, b))
    ensures d.loop.Returned? ==> Pipeline.Apply(source, d, b).loop.Returned?
  {
    PipelineSafety.StepKeepsInv(source, d, b);
    if !PipelineProgress.Fits(source) {
      PipelineProgress.StuckStays(source, d, b);
    }
  }

  lemma BlockStepKeepsInv(c: Setup, s: State, i: nat, b: Pipeline.Step)
    requires c.job.pieceLength > 0 && Inv(c, s) && Enabled(c, s, Block(i, b))
    ensures Inv(c, Apply(c, s, Block(i, b)))
  {
    hide Pipeline.Enabled, Pipeline.Apply, PieceOK, PieceBytes, ProtocolInvariant.Inv, InDownload;
    var next := Apply(c, s, Block(i, b));
    assert DownloadOK(c, s, i);
    PieceStepKeepsOK(PieceBytes(c.job, i), s.downloads[i], b);
    forall k: nat | k < |next.downloads|
      ensures DownloadOK(c, next, k)
    {
      assert DownloadOK(c, s, k);
    }
    assert forall k: nat :: Fetched(s, k) ==> Fetched(next, k);
  }

  lemma ControlKeepsHanded(c: Setup, s: State, p: Protocol.Step)
    requires c.job.pieceLength > 0 && HandedOK(s) && Enabled(c, s, Control(p))
    ensures HandedOK(Apply(c, s, Control(p)))
  {
    var next := Apply(c, s, Control(p));
    assert forall k: nat :: Fetched(s, k) <==> Fetched(next, k);
    forall r: nat, w: nat | Protocol.HasWorker(next.control, r, w) && next.control.runs[r].workers[w].HandingOver?
      ensures Fetched(next, next.control.runs[r].workers[w].piece)
    {
      HandingOverBefore(Config(c), s.control, p, r, w);
    }
  }

  /** A worker that hands over a piece did so before the step, or has just finished its download. */
  lemma HandingOverBefore(c: Protocol.Config, s: Protocol.State, p: Protocol.Step, r: nat, w: nat)
    requires Protocol.Enabled(c, s, p)
    requires var t := Protocol.Apply(c, s, p); Protocol.HasWorker(t, r, w) && t.runs[r].workers[w].HandingOver?
    ensures Protocol.HasWorker(s, r, w)
    ensures var x, y := s.runs[r].workers[w], Protocol.Apply(c, s, p).runs[r].workers[w];
            x == y || (p == Protocol.ByWorker(r, w, Protocol.Finish) && x.Downloading? && x.piece == y.piece)
  {
    var t := Protocol.Apply(c, s, p);
    match p
    case Start => assert t.runs == s.runs + [Protocol.FreshRun(c)];
    case ByRun(k, act) => assert t.runs[r].workers == s.runs[r].workers;
    case ByWorker(k, v, act) => WorkerStepHandsOver(c, s, k, v, act, r, w);
    case BySelector(k, act) => SelectorStepHandsNothing(c, s, k, act, r, w);
  }

  lemma WorkerStepHandsOver(c: Protocol.Config, s: Protocol.State, k: nat, v: nat, act: Protocol.WorkerAct,
                            r: nat, w: nat)
    requires Protocol.HasWorker(s, k, v) && Protocol.WorkerEnabled(c, s, k, v, act)
    requires var t := Protocol.WorkerApply(c, s, k, v, act);
             Protocol.HasWorker(t, r, w) && t.runs[r].workers[w].HandingOver?
    ensures Protocol.HasWorker(s, r, w)
    ensures var x, y := s.runs[r].workers[w], Protocol.WorkerApply(c, s, k, v, act).runs[r].workers[w];
            x == y || (r == k && w == v && act.Finish? && x.Downloading? && x.piece == y.piece)
  {
    hide Protocol.WorkerApply;
    ProtocolSafety.WorkerStepShape(c, s, k, v, act, k);
    ProtocolSafety.OtherWorker(c, s, k, v, act, r, w);
  }

  lemma SelectorStepHandsNothing(c: Protocol.Config, s: Protocol.State, k: nat, act: Protocol.SelectorAct,
                                 r: nat, w: nat)
    requires Protocol.HasRun(s, k) && Protocol.SelectorEnabled(c, s, k, act)
    requires var t := Protocol.SelectorApply(c, s, k, act);
             Protocol.HasWorker(t, r, w) && t.runs[r].workers[w].HandingOver?
    ensures Protocol.HasWorker(s, r, w)
            && Protocol.SelectorApply(c, s, k, act).runs[r].workers[w] == s.runs[r].workers[w]
  {}

  lemma ControlKeepsBusy(c: Setup, s: State, p: Protocol.Step, i: nat)
    requires c.job.pieceLength > 0 && FilesOK(c, s) && Enabled(c, s, Control(p))
    ensures var next := Apply(c, s, Control(p));
            multiset(next.written)[i] + ProtocolLedger.RunsBear(next.control.runs, ProtocolLedger.Busy(i))
            == multiset(next.control.handed)[i]
  {
    BusyMoves(Config(c), s.control, p, i);
  }

  lemma WriteDoneKeepsFiles(c: Setup, s: State, p: Protocol.Step)
    requires SetupOK(c) && Inv(c, s) && Enabled(c, s, Control(p)) && IsWriteDone(p)
    ensures var next := Apply(c, s, Control(p)); next.files == WriteAll(c.files, c.job, next.written)
  {
    var i := s.control.runs[p.run].writer.piece;
    var next := Apply(c, s, Control(p));
    WritingIsFetched(c, s, p.run);
    assert DownloadOK(c, s, i);
    PieceBytesPlace(c.job, i);
    PipelineSafety.FullMeansSource(PieceBytes(c.job, i), s.downloads[i]);
    assert next.written[..|next.written| - 1] == s.written;
  }

  lemma ControlKeepsFiles(c: Setup, s: State, p: Protocol.Step)
    requires SetupOK(c) && Inv(c, s) && Enabled(c, s, Control(p))
    ensures FilesOK(c, Apply(c, s, Control(p)))
  {
    forall i: nat
      ensures var next := Apply(c, s, Control(p));
              multiset(next.written)[i] + ProtocolLedger.RunsBear(next.control.runs, ProtocolLedger.Busy(i))
              == multiset(next.control.handed)[i]
    {
      ControlKeepsBusy(c, s, p, i);
    }
    if IsWriteDone(p) {
      WriteDoneKeepsFiles(c, s, p);
    }
  }

  predicate IsHandOver(p: Protocol.Step) {
    p.ByWorker? && p.workerAct.HandOver?
  }

  lemma HandedMoves(c: Protocol.Config, s: Protocol.State, p: Protocol.Step, i: nat)
    requires Protocol.Enabled(c, s, p)
    ensures multiset(Protocol.Apply(c, s, p).handed)[i]
            == multiset(s.handed)[i]
               + if IsHandOver(p) && s.runs[p.run].workers[p.worker].piece == i then 1 else 0
  {
    hide Protocol.OwnRunAfter, Protocol.WorkerAfter, Protocol.SelectorAfter, Protocol.RunAfter;
  }

  /** The pieces being written go up by one with a hand-over and down by one with a finished write. */
  lemma BusyMoves(c: Protocol.Config, s: Protocol.State, p: Protocol.Step, i: nat)
    requires Protocol.Enabled(c, s, p)
    ensures var t := Protocol.Apply(c, s, p);
            var busy := ProtocolLedger.Busy(i);
            ProtocolLedger.RunsBear(t.runs, busy) - multiset(t.handed)[i]
            == ProtocolLedger.RunsBear(s.runs, busy) - multiset(s.handed)[i]
               - (if IsWriteDone(p) && s.runs[p.run].writer.piece == i then 1 else 0)
  {
    var busy := ProtocolLedger.Busy(i);
    HandedMoves(c, s, p, i);
    hide Protocol.RunApply, Protocol.WorkerApply, Protocol.SelectorApply;
    hide ProtocolLedger.RunsBear, ProtocolLedger.RunBears;
    match p
    case Start =>
      ProtocolLedger.RunsBearAppend(s.runs, Protocol.FreshRun(c), busy);
      ProtocolInvariant.FreshRunBears(c, busy);
    case ByRun(r, act) => ProtocolInvariant.RunStepMoves(c, s, r, act, busy);
    case ByWorker(r, w, act) => ProtocolInvariant.WorkerStepMoves(c, s, r, w, act, busy);
    case BySelector(r, act) => ProtocolInvariant.SelectorStepMoves(c, s, r, act, busy);
  }

  lemma WritingIsFetched(c: Setup, s: State, r: nat)
    requires c.job.pieceLength > 0 && Inv(c, s) && Protocol.HasRun(s.control, r) && s.control.runs[r].writer.Writing?
    ensures Fetched(s, s.control.runs[r].writer.piece)
  {
    var i := s.control.runs[r].writer.piece;
    ProtocolLedger.RunsBearOne(s.control.runs, r, ProtocolLedger.Busy(i));
    assert multiset(s.control.handed)[i] >= 1;
  }

  lemma StepKeepsInv(c: Setup, s: State, step: Step)
    requires SetupOK(c) && Inv(c, s) && Enabled(c, s, step)
    ensures Inv(c, Apply(c, s, step))
  {
    match step
    case Control(p) =>
      ProtocolSafety.StepKeepsInv(Config(c), s.control, p);
      ControlKeepsHanded(c, s, p);
      ControlKeepsFiles(c, s, p);
      var next := Apply(c, s, step);
      forall k: nat | k < |next.downloads|
        ensures DownloadOK(c, next, k)
      {
        assert DownloadOK(c, s, k);
      }
    case Block(i, b) => BlockStepKeepsInv(c, s, i, b);
  }

  lemma InitialInv(c: Setup)
    requires SetupOK(c)
    ensures Inv(c, Initial(c))
  {
    ProtocolSafety.InvAlways(Config(c), []);
    forall i: nat | i < |Initial(c).downloads|
      ensures DownloadOK(c, Initial(c), i)
    {
      PipelineSafety.InitialInv(PieceBytes(c.job, i));
    }
  }

  lemma {:induction false} InvAlways(c: Setup, steps: seq<Step>)
    requires SetupOK(c) && Admissible(c, steps)
    ensures Inv(c, Execute(c, steps))
    decreases |steps|
  {
    if steps == [] {
      InitialInv(c);
    } else {
      InvAlways(c, steps[..|steps| - 1]);
      StepKeepsInv(c, Execute(c, steps[..|steps| - 1]), steps[|steps| - 1]);
    }
  }

  // ---------------------------------------------------------------- who runs a download

  /** A worker is in download until it finishes. */
  lemma DownloadingStays(c: Protocol.Config, s: Protocol.State, p: Protocol.Step, r: nat, w: nat)
    requires Protocol.Enabled(c, s, p) && Protocol.HasWorker(s, r, w) && s.runs[r].workers[w].Downloading?
    ensures var t := Protocol.Apply(c, s, p);
            Protocol.HasWorker(t, r, w)
            && (t.runs[r].workers[w] == s.runs[r].workers[w] || p == Protocol.ByWorker(r, w, Protocol.Finish))
  {
    match p
    case Start =>
    case ByRun(k, act) =>
    case ByWorker(k, v, act) =>
      ProtocolSafety.WorkerStepShape(c, s, k, v, act, r);
      ProtocolInvariant.OwnRunShape(c, s, k, v, act);
      hide Protocol.WorkerApply, Protocol.OwnRunAfter, Protocol.WorkerAfter;
    case BySelector(k, act) =>
      ProtocolSafety.SelectorStepShape(c, s, k, act, r);
      hide Protocol.SelectorApply, Protocol.SelectorAfter;
  }

  /** The requesting loop of piece i has begun and has not returned. */
  predicate UnderWay(s: State, i: nat) {
    i < |s.downloads| && !s.downloads[i].loop.NotBegun? && !s.downloads[i].loop.Returned?
  }

  lemma ControlKeepsInDownload(c: Setup, s: State, p: Protocol.Step, i: nat)
    requires c.job.pieceLength > 0 && Enabled(c, s, Control(p)) && UnderWay(s, i) && InDownload(s.control, i)
    ensures InDownload(Apply(c, s, Control(p)).control, i)
  {
    var r: nat, w: nat :|
      Protocol.HasWorker(s.control, r, w) && s.control.runs[r].workers[w].Downloading?
      && s.control.runs[r].workers[w].piece == i;
    DownloadingStays(Config(c), s.control, p, r, w);
    hide Protocol.Apply, Protocol.Enabled;
  }

  /** Requests for a piece are made only by a worker that downloads it, at any time until the loop returns. */
  lemma {:induction false} OnlyAWorkerDownloads(c: Setup, steps: seq<Step>, i: nat)
    requires SetupOK(c) && Admissible(c, steps) && UnderWay(Execute(c, steps), i)
    ensures InDownload(Execute(c, steps).control, i)
    decreases |steps|
  {
    if steps != [] {
      var before, step := steps[..|steps| - 1], steps[|steps| - 1];
      if UnderWay(Execute(c, before), i) {
        OnlyAWorkerDownloads(c, before, i);
        if step.Control? {
          ControlKeepsInDownload(c, Execute(c, before), step.step, i);
        }
      }
    }
  }

  // ---------------------------------------------------------------- the theorems

  /** Every piece was selected, none is left in a channel, a dispatcher or a worker of any run, and every writer
      is between writes. */
  ghost predicate Settled(c: Setup, s: State)
    requires c.job.pieceLength > 0
  {
    && s.control.totalSelected >= NumPieces(c.job)
    && ProtocolCompletion.NothingLeft(s.control)
    && forall r :: 0 <= r < |s.control.runs| ==> !s.control.runs[r].writer.Writing?
  }

  ghost predicate AllWritten(c: Setup, s: State)
    requires c.job.pieceLength > 0
  {
    forall i: nat :: multiset(s.written)[i] == if i < NumPieces(c.job) then 1 else 0
  }

  lemma {:induction false} NoJobIsBusy(jobs: seq<Option<nat>>, i: nat)
    ensures ProtocolLedger.JobsBear(jobs, ProtocolLedger.Busy(i)) == 0
  {
    if jobs != [] {
      NoJobIsBusy(jobs[1..], i);
    }
  }

  lemma NothingBusy(s: Protocol.State, i: nat)
    requires forall r :: 0 <= r < |s.runs| ==> !s.runs[r].writer.Writing?
    ensures ProtocolLedger.RunsBear(s.runs, ProtocolLedger.Busy(i)) == 0
  {
    forall r | 0 <= r < |s.runs|
      ensures ProtocolLedger.RunBears(s.runs[r], ProtocolLedger.Busy(i)) == 0
    {
      ProtocolLedger.WorkersBearNone(s.runs[r].workers, ProtocolLedger.Busy(i));
      NoJobIsBusy(s.runs[r].jobs, i);
    }
    ProtocolCompletion.RunsBearNone(s.runs, ProtocolLedger.Busy(i));
  }

  /** An index that is no piece was never handed over. */
  lemma HandedAtMostOnce(c: Protocol.Config, s: Protocol.State, i: nat)
    requires ProtocolInvariant.LedgerOK(c, s)
    ensures multiset(s.handed)[i] <= if i < c.nPiece then 1 else 0
  {}

  lemma SettledMeansAllWritten(c: Setup, s: State)
    requires c.job.pieceLength > 0 && Inv(c, s) && Settled(c, s)
    ensures AllWritten(c, s)
  {
    ProtocolCompletion.HandedIffNothingLeft(Config(c), s.control);
    forall i: nat
      ensures multiset(s.written)[i] == if i < NumPieces(c.job) then 1 else 0
    {
      NothingBusy(s.control, i);
      HandedAtMostOnce(Config(c), s.control, i);
    }
  }

  lemma AllWrittenMeansSettled(c: Setup, s: State)
    requires c.job.pieceLength > 0 && Inv(c, s) && AllWritten(c, s)
    ensures Settled(c, s)
  {
    forall i: nat
      ensures ProtocolLedger.RunsBear(s.control.runs, ProtocolLedger.Busy(i)) == 0
      ensures i < NumPieces(c.job) ==> multiset(s.control.handed)[i] == 1
    {
      HandedAtMostOnce(Config(c), s.control, i);
    }
    ProtocolCompletion.HandedIffNothingLeft(Config(c), s.control);
    forall r: nat | r < |s.control.runs|
      ensures !s.control.runs[r].writer.Writing?
    {
      if s.control.runs[r].writer.Writing? {
        ProtocolLedger.RunsBearOne(s.control.runs, r, ProtocolLedger.Busy(s.control.runs[r].writer.piece));
      }
    }
  }

  /** Over any restarts and cancellations: each piece was written exactly once, and nothing else was, if and only
      if the engine is settled. */
  lemma AllWrittenIff(c: Setup, steps: seq<Step>)
    requires SetupOK(c) && Admissible(c, steps)
    ensures AllWritten(c, Execute(c, steps)) <==> Settled(c, Execute(c, steps))
  {
    InvAlways(c, steps);
    if Settled(c, Execute(c, steps)) {
      SettledMeansAllWritten(c, Execute(c, steps));
    }
    if AllWritten(c, Execute(c, steps)) {
      AllWrittenMeansSettled(c, Execute(c, steps));
    }
  }

  ghost predicate FileDone(c: Setup, s: State, j: nat)
    requires j < |c.job.segments|
  {
    var g := c.job.segments[j];
    && g.startIndex <= g.endIndex <= |c.job.content|
    && Read(s.files, g.GetPath()) == Slice(c.job, g) + Tail(Read(c.files, g.GetPath()), g.file.length)
    && (g.GetPath() in s.files <==> g.GetPath() in c.files || g.startIndex < |c.job.content|)
  }

  /** However often the engine was cancelled and started again: once it is settled, every file holds its slice of
      the torrent, whatever the interleaving, the order of replies and the order in which pieces were finished. */
  lemma SettledMeansFiles(c: Setup, steps: seq<Step>, j: nat)
    requires SetupOK(c) && Admissible(c, steps) && Settled(c, Execute(c, steps)) && j < |c.job.segments|
    ensures FileDone(c, Execute(c, steps), j)
  {
    InvAlways(c, steps);
    SettledMeansAllWritten(c, Execute(c, steps));
    var order: seq<nat> := Execute(c, steps).written;
    forall i: nat | i < NumPieces(c.job)
      ensures i in order
    {
      assert multiset(Execute(c, steps).written)[i] == 1;
    }
    AnyOrderAssembles(c.files, c.job, order, j);
    ExistsIffStartsInside(c.files, c.job, order, j);
  }

  /** File j of the torrent's list is in its place: below the torrent's folder, its bytes those from where the files
      before it end. What an older, longer file held beyond them is still there. */
  ghost predicate OnDisk(c: Setup, files: Files, listed: seq<File>, folder: Path, j: nat)
    requires j < |listed|
  {
    var path, at, n := folder + listed[j].path, SumLengths(listed[..j]), listed[j].length;
    && at + n <= |c.job.content|
    && (path in files <==> path in c.files || at < |c.job.content|)
    && (path in files ==>
          files[path] == c.job.content[at..at + n]
                         + if path in c.files && |c.files[path]| > n then c.files[path][n..] else [])
  }

  lemma FileDoneIsOnDisk(c: Setup, s: State, listed: seq<File>, folder: Path, j: nat)
    requires LaidOut(c.job.segments, listed, folder) && j < |listed| && FileDone(c, s, j)
    ensures OnDisk(c, s.files, listed, folder, j)
  {
    SegmentStart(c.job.segments, listed, folder, j);
  }

  /** A settled engine, in the torrent's own terms: with the segments that BuildFileSegment leaves, every listed file
      is at its path. The folder is [name] for several files and [] for one. */
  lemma SettledMeansOnDisk(c: Setup, steps: seq<Step>, listed: seq<File>, folder: Path, j: nat)
    requires SetupOK(c) && Admissible(c, steps) && Settled(c, Execute(c, steps))
    requires LaidOut(c.job.segments, listed, folder) && j < |listed|
    ensures OnDisk(c, Execute(c, steps).files, listed, folder, j)
  {
    SettledMeansFiles(c, steps, j);
    FileDoneIsOnDisk(c, Execute(c, steps), listed, folder, j);
  }

  /** One uncancelled run has posted completion and its writer is between writes. */
  predicate Complete(s: State) {
    ProtocolTheorems.Posted(s.control) && !s.control.runs[0].cancelled && !s.control.runs[0].writer.Writing?
  }

  lemma CompleteIsSettled(c: Setup, s: State)
    requires c.job.pieceLength > 0 && Inv(c, s) && Complete(s)
    ensures Settled(c, s) && ProtocolInvariant.AllHanded(Config(c), s.control)
  {
    ProtocolCompletion.HandedIffNothingLeft(Config(c), s.control);
  }

  lemma CompleteMeansWritten(c: Setup, steps: seq<Step>)
    requires SetupOK(c) && Admissible(c, steps) && Complete(Execute(c, steps))
    ensures var s := Execute(c, steps); s.files == WriteAll(c.files, c.job, s.written) && AllWritten(c, s)
  {
    InvAlways(c, steps);
    CompleteIsSettled(c, Execute(c, steps));
    SettledMeansAllWritten(c, Execute(c, steps));
  }

  /** Completion of an uncancelled run means that every file holds its slice of the torrent. */
  lemma CompletionMeansFiles(c: Setup, steps: seq<Step>, j: nat)
    requires SetupOK(c) && Admissible(c, steps) && Complete(Execute(c, steps)) && j < |c.job.segments|
    ensures var s := c.job.segments[j];
            var files := Execute(c, steps).files;
            && s.startIndex <= s.endIndex <= |c.job.content|
            && Read(files, s.GetPath()) == Slice(c.job, s) + Tail(Read(c.files, s.GetPath()), s.file.length)
            && (s.GetPath() in files <==> s.GetPath() in c.files || s.startIndex < |c.job.content|)
  {
    InvAlways(c, steps);
    CompleteIsSettled(c, Execute(c, steps));
    SettledMeansFiles(c, steps, j);
  }

  lemma CompletionMeansOnDisk(c: Setup, steps: seq<Step>, listed: seq<File>, folder: Path, j: nat)
    requires SetupOK(c) && Admissible(c, steps) && Complete(Execute(c, steps))
    requires LaidOut(c.job.segments, listed, folder) && j < |listed|
    ensures OnDisk(c, Execute(c, steps).files, listed, folder, j)
  {
    InvAlways(c, steps);
    CompleteIsSettled(c, Execute(c, steps));
    SettledMeansOnDisk(c, steps, listed, folder, j);
  }

  // ---------------------------------------------------------------- a piece left behind

  lemma {:induction false} StaysAbandoned(c: Setup, steps: seq<Step>, longer: seq<Step>, r: nat, i: nat)
    requires SetupOK(c) && Admissible(c, steps) && ProtocolCompletion.Abandoned(Execute(c, steps).control, r, i)
    requires steps <= longer && Admissible(c, longer)
    ensures ProtocolCompletion.Abandoned(Execute(c, longer).control, r, i)
    decreases |longer|
  {
    hide ProtocolCompletion.Abandoned, Protocol.Apply, Protocol.Enabled;
    if |longer| > |steps| {
      var before, step := longer[..|longer| - 1], longer[|longer| - 1];
      assert steps == before[..|steps|];
      StaysAbandoned(c, steps, before, r, i);
      if step.Control? {
        ProtocolCompletion.StepKeepsAbandoned(Config(c), Execute(c, before).control, step.step, r, i);
      }
    } else {
      assert longer == steps;
    }
  }

  /** A piece left in the channel of a run without workers is never written, whatever is started later; so the
      engine never settles. */
  lemma AbandonedIsNeverWritten(c: Setup, steps: seq<Step>, longer: seq<Step>, r: nat, i: nat)
    requires SetupOK(c) && Admissible(c, steps) && ProtocolCompletion.Abandoned(Execute(c, steps).control, r, i)
    requires steps <= longer && Admissible(c, longer)
    ensures i < NumPieces(c.job) && i !in Execute(c, longer).written && !Settled(c, Execute(c, longer))
  {
    StaysAbandoned(c, steps, longer, r, i);
    InvAlways(c, longer);
    var s := Execute(c, longer);
    ProtocolCompletion.AbandonedIsNotHanded(Config(c), s.control, r, i);
    assert multiset(s.written)[i] <= multiset(s.control.handed)[i] == 0;
    ProtocolCompletion.HandedIffNothingLeft(Config(c), s.control);
  }

  // ---------------------------------------------------------------- short last pieces

  lemma Distribute(n: nat, m: nat)
    ensures (n - 1) * m + m == n * m
  {}

  /** The length of the torrent's last piece. */
  function LastPieceLength(job: Job): (r: nat)
    requires job.pieceLength > 0 && |job.content| > 0
    ensures 0 < r <= job.pieceLength && |job.content| == (NumPieces(job) - 1) * job.pieceLength + r
  {
    PieceOfOffset(|job.content|, job.pieceLength, 0);
    PieceInside(|job.content|, job.pieceLength, NumPieces(job) - 1);
    Distribute(NumPieces(job), job.pieceLength);
    PieceLengthAt(|job.content|, job.pieceLength, NumPieces(job) - 1)
  }

  lemma NotLastIsFull(length: nat, pieceLength: nat, i: nat)
    requires pieceLength > 0 && i + 1 < PieceCount(length, pieceLength)
    ensures PieceLengthAt(length, pieceLength, i) == pieceLength
  {
    PieceInside(length, pieceLength, i + 1);
    assert PieceStart(pieceLength, i + 1) == PieceStart(pieceLength, i) + pieceLength;
  }

  /** No piece is shorter than the last one. */
  lemma LastIsShortest(job: Job, i: nat)
    requires job.pieceLength > 0 && |job.content| > 0 && i < NumPieces(job)
    ensures |PieceBytes(job, i)| >= LastPieceLength(job) > 0
    ensures i == NumPieces(job) - 1 ==> |PieceBytes(job, i)| == LastPieceLength(job)
  {
    hide PieceCount, PieceLengthAt, PieceBytes;
    PieceBytesPlace(job, i);
    PieceInside(|job.content|, job.pieceLength, NumPieces(job) - 1);
    if i + 1 < NumPieces(job) {
      NotLastIsFull(|job.content|, job.pieceLength, i);
    }
  }

  lemma AtLeastOnePiece(job: Job)
    requires job.pieceLength > 0 && |job.content| > 0
    ensures NumPieces(job) > 0
  {
    PieceOfOffset(|job.content|, job.pieceLength, 0);
  }

  lemma AllFitIffLastFits(job: Job)
    requires job.pieceLength > 0 && |job.content| > 0
    ensures (forall i: nat :: i < NumPieces(job) ==> PipelineProgress.Fits(PieceBytes(job, i)))
            <==> LastPieceLength(job) >= 16384
  {
    hide NumPieces, PieceBytes, LastPieceLength;
    AtLeastOnePiece(job);
    LastIsShortest(job, NumPieces(job) - 1);
    forall i: nat | i < NumPieces(job)
      ensures |PieceBytes(job, i)| >= LastPieceLength(job) > 0
    {
      LastIsShortest(job, i);
    }
    if LastPieceLength(job) < Blocks.BLOCK_LEN {
      assert !PipelineProgress.Fits(PieceBytes(job, NumPieces(job) - 1));
    }
  }

  /** A torrent whose last piece is shorter than a block is never completed. */
  lemma CompletionNeedsFullLastBlock(c: Setup, steps: seq<Step>)
    requires SetupOK(c) && Admissible(c, steps) && Complete(Execute(c, steps)) && |c.job.content| > 0
    ensures LastPieceLength(c.job) >= 16384
  {
    InvAlways(c, steps);
    CompleteMeansWritten(c, steps);
    var s := Execute(c, steps);
    forall i: nat | i < NumPieces(c.job)
      ensures PipelineProgress.Fits(PieceBytes(c.job, i))
    {
      ProtocolHanded(c, s, i);
      assert DownloadOK(c, s, i);
    }
    AllFitIffLastFits(c.job);
  }

  lemma ProtocolHanded(c: Setup, s: State, i: nat)
    requires c.job.pieceLength > 0 && Inv(c, s) && Complete(s) && i < NumPieces(c.job)
    ensures Fetched(s, i)
  {
    assert multiset(s.control.handed)[i] == 1;
    assert i in s.control.handed;
  }
}
