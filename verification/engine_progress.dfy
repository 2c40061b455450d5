/** The whole engine does not deadlock, does only bounded work, and can complete exactly the torrents whose
    last piece is a block long, whose pieces are all offered, when there is a worker at all. */
module EngineProgress {
  import opened Common
  import opened Torrents
  import opened Assembly
  import opened EndToEnd
  import Blocks
  import Protocol
  import ProtocolLedger
  import ProtocolInvariant
  import ProtocolProgress
  import ProtocolWork
  import Pipeline
  import PipelineProgress

  ghost predicate Live(c: Setup, s: State)
    requires c.job.pieceLength > 0
  {
    Inv(c, s) && ProtocolProgress.Live(Config(c), s.control)
  }

  lemma {:induction false} LiveAlways(c: Setup, steps: seq<Step>)
    requires SetupOK(c) && Admissible(c, steps)
    ensures Live(c, Execute(c, steps))
    decreases |steps|
  {
    InvAlways(c, steps);
    if steps != [] {
      var before, step := steps[..|steps| - 1], steps[|steps| - 1];
      LiveAlways(c, before);
      if step.Control? {
        ProtocolProgress.StepKeepsLive(Config(c), Execute(c, before).control, step.step);
      }
    }
  }

  // ---------------------------------------------------------------- what a torrent needs

  ghost predicate AllFit(c: Setup)
    requires c.job.pieceLength > 0
  {
    forall i: nat :: i < NumPieces(c.job) ==> PipelineProgress.Fits(PieceBytes(c.job, i))
  }

  ghost predicate AllOffered(c: Setup)
    requires c.job.pieceLength > 0
  {
    ProtocolProgress.AllOffered(Config(c))
  }

  /** What a caller can look up beforehand. */
  ghost predicate Completable(c: Setup)
    requires c.job.pieceLength > 0
  {
    c.nWorker > 0 && AllOffered(c) && (|c.job.content| > 0 ==> LastPieceLength(c.job) >= 16384)
  }

  lemma CompletableFits(c: Setup)
    requires SetupOK(c) && Completable(c)
    ensures AllFit(c)
  {
    if |c.job.content| > 0 {
      AllFitIffLastFits(c.job);
    }
  }

  // ---------------------------------------------------------------- work left

  function SumRank(job: Job, downloads: seq<Pipeline.State>, n: nat): int
    requires n <= |downloads|
  {
    if n == 0 then 0
    else SumRank(job, downloads, n - 1) + PipelineProgress.Rank(PieceBytes(job, n - 1), downloads[n - 1])
  }

  lemma {:induction false} SumRankUpdate(job: Job, downloads: seq<Pipeline.State>, n: nat, i: nat, d: Pipeline.State)
    requires n <= |downloads| && i < |downloads|
    ensures SumRank(job, downloads[i := d], n)
            == SumRank(job, downloads, n)
               + if i < n then PipelineProgress.Rank(PieceBytes(job, i), d)
                               - PipelineProgress.Rank(PieceBytes(job, i), downloads[i])
                 else 0
  {
    hide PipelineProgress.Rank, PieceBytes;
    if n > 0 {
      SumRankUpdate(job, downloads, n - 1, i, d);
    }
  }

  lemma {:induction false} SumRankNonNegative(c: Setup, s: State, n: nat)
    requires c.job.pieceLength > 0 && DownloadsOK(c, s) && n <= |s.downloads|
    ensures SumRank(c.job, s.downloads, n) >= 0
  {
    if n > 0 {
      SumRankNonNegative(c, s, n - 1);
      assert DownloadOK(c, s, n - 1);
      PipelineProgress.RankNonNegative(PieceBytes(c.job, n - 1), s.downloads[n - 1]);
    }
  }

  function Left(c: Setup, s: State): int
    requires c.job.pieceLength > 0
  {
    ProtocolWork.Work(Config(c), s.control) + SumRank(c.job, s.downloads, |s.downloads|)
  }

  /** Steps of the engine's own, other than a turn of a requesting loop that finds nothing to ask for. */
  ghost predicate Progresses(c: Setup, s: State, step: Step)
    requires c.job.pieceLength > 0 && Enabled(c, s, step)
  {
    match step
    case Control(p) => ProtocolProgress.Useful(p)
    case Block(i, b) => !PipelineProgress.Spins(PieceBytes(c.job, i), s.downloads[i], b)
  }

  function Strays(step: Step): nat {
    if step.Control? then ProtocolWork.Strays(step.step) else 0
  }

  lemma BlockStepLowers(c: Setup, s: State, i: nat, b: Pipeline.Step)
    requires SetupOK(c) && Inv(c, s) && Enabled(c, s, Block(i, b))
    ensures Left(c, Apply(c, s, Block(i, b))) + (if Progresses(c, s, Block(i, b)) then 1 else 0) <= Left(c, s)
  {
    assert DownloadOK(c, s, i);
    PipelineProgress.RankDrops(PieceBytes(c.job, i), s.downloads[i], b);
    SumRankUpdate(c.job, s.downloads, |s.downloads|, i,
                  Pipeline.Apply(PieceBytes(c.job, i), s.downloads[i], b));
    hide PipelineProgress.Rank, PipelineProgress.Spins, ProtocolWork.Work;
  }

  predicate AtMostOne(s: State) {
    ProtocolWork.AtMostOne(s.control)
  }

  lemma ControlStepLowers(c: Setup, s: State, p: Protocol.Step)
    requires SetupOK(c) && Inv(c, s) && Enabled(c, s, Control(p)) && AtMostOne(s) && AtMostOne(Apply(c, s, Control(p)))
    ensures Left(c, Apply(c, s, Control(p))) + (if Progresses(c, s, Control(p)) then 1 else 0)
            <= Left(c, s) + ProtocolWork.StrayPrice(Config(c)) * Strays(Control(p))
  {
    hide ProtocolWork.Work, ProtocolWork.StrayPrice, SumRank, Protocol.Apply, Protocol.Enabled, ProtocolWork.AtMostOne;
    ProtocolWork.StepWork(Config(c), s.control, p);
  }

  lemma StepLowers(c: Setup, s: State, step: Step)
    requires SetupOK(c) && Inv(c, s) && Enabled(c, s, step) && AtMostOne(s) && AtMostOne(Apply(c, s, step))
    ensures Left(c, Apply(c, s, step)) + (if Progresses(c, s, step) then 1 else 0)
            <= Left(c, s) + ProtocolWork.StrayPrice(Config(c)) * Strays(step)
  {
    hide Left, Inv, Enabled, Apply, Progresses, AtMostOne, ProtocolWork.StrayPrice;
    match step
    case Control(p) => ControlStepLowers(c, s, p);
    case Block(i, b) =>
      BlockStepLowers(c, s, i, b);
      assert Strays(step) == 0;
  }

  // ---------------------------------------------------------------- no deadlock

  lemma DownloadingIsPiece(c: Protocol.Config, s: Protocol.State, w: nat)
    requires ProtocolInvariant.LedgerOK(c, s) && Protocol.HasWorker(s, 0, w) && s.runs[0].workers[w].Downloading?
    ensures s.runs[0].workers[w].piece < c.nPiece
  {
    var i := s.runs[0].workers[w].piece;
    ProtocolLedger.WorkersBearOne(s.runs[0].workers, w, ProtocolLedger.Held(i));
    ProtocolLedger.RunsBearOne(s.runs, 0, ProtocolLedger.Held(i));
  }

  lemma DownloadCanStep(c: Setup, s: State, w: nat) returns (step: Step)
    requires SetupOK(c) && Inv(c, s) && AllFit(c) && ProtocolProgress.Lone(s.control)
    requires Protocol.HasWorker(s.control, 0, w) && s.control.runs[0].workers[w].Downloading?
    ensures Enabled(c, s, step) && Progresses(c, s, step)
  {
    var i := s.control.runs[0].workers[w].piece;
    DownloadingIsPiece(Config(c), s.control, w);
    if s.downloads[i].loop.Returned? {
      step := Control(Protocol.ByWorker(0, w, Protocol.Finish));
    } else {
      assert DownloadOK(c, s, i);
      var b := PipelineProgress.CanProceed(PieceBytes(c.job, i), s.downloads[i]);
      assert InDownload(s.control, i);
      step := Block(i, b);
    }
  }

  /** No deadlock: until it is done, a lone run of a completable torrent has a step that makes progress. */
  lemma NeverStuck(c: Setup, steps: seq<Step>) returns (step: Step)
    requires SetupOK(c) && Completable(c) && Admissible(c, steps)
    requires ProtocolProgress.Lone(Execute(c, steps).control) && !Complete(Execute(c, steps))
    ensures Enabled(c, Execute(c, steps), step) && Progresses(c, Execute(c, steps), step)
    ensures ProtocolProgress.Lone(Apply(c, Execute(c, steps), step).control)
  {
    hide Completable, AllFit, Progresses, Enabled, Protocol.Enabled, ProtocolProgress.Useful;
    var s := Execute(c, steps);
    LiveAlways(c, steps);
    CompletableFits(c);
    NotDone(c, s);
    NeedsWorkerAndPeers(c);
    var p := ProtocolProgress.CanStep(Config(c), s.control);
    step := LiftStep(c, s, p);
    StaysLone(c, s, step);
  }

  lemma NotDone(c: Setup, s: State)
    requires c.job.pieceLength > 0 && Inv(c, s) && ProtocolProgress.Lone(s.control) && !Complete(s)
    ensures !ProtocolProgress.Done(s.control.runs[0])
  {
    assert ProtocolInvariant.RunOK(Config(c), s.control.runs[0]);
  }

  lemma NeedsWorkerAndPeers(c: Setup)
    requires SetupOK(c) && Completable(c)
    ensures Config(c).nWorker > 0 && ProtocolProgress.AllOffered(Config(c))
  {}

  /** A step of the protocol becomes one of the engine: while a download has not returned, one of its own. */
  lemma LiftStep(c: Setup, s: State, p: Protocol.Step) returns (step: Step)
    requires SetupOK(c) && Inv(c, s) && AllFit(c) && ProtocolProgress.Lone(s.control)
    requires Protocol.Enabled(Config(c), s.control, p) && ProtocolProgress.Useful(p)
    ensures Enabled(c, s, step) && Progresses(c, s, step)
  {
    if IsFinish(p) {
      step := DownloadCanStep(c, s, p.worker);
    } else {
      if IsWriteDone(p) {
        WritingIsFetched(c, s, p.run);
      }
      step := Control(p);
    }
  }

  lemma StaysLone(c: Setup, s: State, step: Step)
    requires c.job.pieceLength > 0 && Enabled(c, s, step) && Progresses(c, s, step) && ProtocolProgress.Lone(s.control)
    ensures ProtocolProgress.Lone(Apply(c, s, step).control)
  {
    hide Protocol.Enabled, Protocol.Apply, ProtocolProgress.Lone, ProtocolProgress.Useful, PipelineProgress.Spins;
    if step.Control? {
      ProtocolWork.UsefulStaysLone(Config(c), s.control, step.step);
    }
  }

  // ---------------------------------------------------------------- bounded work

  ghost function Progress(c: Setup, steps: seq<Step>): nat
    requires c.job.pieceLength > 0 && Admissible(c, steps)
    decreases |steps|
  {
    if steps == [] then 0
    else
      var before, step := steps[..|steps| - 1], steps[|steps| - 1];
      Progress(c, before) + if Progresses(c, Execute(c, before), step) then 1 else 0
  }

  function StrayCount(steps: seq<Step>): nat {
    if steps == [] then 0 else StrayCount(steps[..|steps| - 1]) + Strays(steps[|steps| - 1])
  }

  lemma AtMostOneBefore(c: Setup, s: State, step: Step)
    requires c.job.pieceLength > 0 && Enabled(c, s, step) && AtMostOne(Apply(c, s, step))
    ensures AtMostOne(s)
  {
    hide ProtocolWork.AtMostOne, Protocol.Apply, Protocol.Enabled;
    if step.Control? {
      ProtocolWork.AtMostOneBefore(Config(c), s.control, step.step);
    }
  }

  lemma LeftNonNegative(c: Setup, s: State)
    requires c.job.pieceLength > 0 && Inv(c, s)
    ensures Left(c, s) >= 0
  {
    SumRankNonNegative(c, s, |s.downloads|);
  }

  /** The number of steps that make progress is bounded by the setup and the stray signals. */
  lemma {:induction false} BoundedWork(c: Setup, steps: seq<Step>)
    requires SetupOK(c) && Admissible(c, steps) && AtMostOne(Execute(c, steps))
    ensures Progress(c, steps) + Left(c, Execute(c, steps))
            <= Left(c, Initial(c)) + ProtocolWork.StrayPrice(Config(c)) * StrayCount(steps)
    ensures Left(c, Execute(c, steps)) >= 0
    decreases |steps|
  {
    hide Left, Inv, AtMostOne, Apply, Enabled, Progresses, ProtocolWork.StrayPrice, Strays;
    InvAlways(c, steps);
    LeftNonNegative(c, Execute(c, steps));
    if steps != [] {
      var before, step := steps[..|steps| - 1], steps[|steps| - 1];
      var s := Execute(c, before);
      AtMostOneBefore(c, s, step);
      BoundedWork(c, before);
      InvAlways(c, before);
      StepLowers(c, s, step);
      var price := ProtocolWork.StrayPrice(Config(c));
      assert price * StrayCount(steps) == price * StrayCount(before) + price * Strays(step);
    }
  }

  // ---------------------------------------------------------------- which torrents complete

  lemma OneMore(c: Setup, steps: seq<Step>, step: Step) returns (more: seq<Step>)
    requires SetupOK(c) && Admissible(c, steps) && Enabled(c, Execute(c, steps), step)
    ensures steps <= more && Admissible(c, more) && Execute(c, more) == Apply(c, Execute(c, steps), step)
  {
    more := steps + [step];
    assert more[..|more| - 1] == steps;
  }

  lemma LoneIsOne(s: State)
    requires ProtocolProgress.Lone(s.control)
    ensures AtMostOne(s)
  {}

  lemma NoStray(c: Setup, s: State, step: Step)
    requires c.job.pieceLength > 0 && Enabled(c, s, step) && Progresses(c, s, step)
    ensures Strays(step) == 0
  {}

  /** Any uncancelled lone run of a completable torrent can be continued until it is complete. */
  lemma {:induction false} CanComplete(c: Setup, steps: seq<Step>) returns (longer: seq<Step>)
    requires SetupOK(c) && Completable(c) && Admissible(c, steps) && ProtocolProgress.Lone(Execute(c, steps).control)
    ensures steps <= longer && Admissible(c, longer) && Complete(Execute(c, longer))
    decreases Left(c, Execute(c, steps))
  {
    hide Completable, Complete, ProtocolProgress.Lone, AtMostOne, Left, Inv, Strays, Progresses, Enabled, Apply;
    hide ProtocolWork.StrayPrice;
    if Complete(Execute(c, steps)) {
      longer := steps;
    } else {
      var step := NeverStuck(c, steps);
      var more := OneMore(c, steps, step);
      InvAlways(c, steps);
      LoneIsOne(Execute(c, steps));
      LoneIsOne(Execute(c, more));
      NoStray(c, Execute(c, steps), step);
      StepLowers(c, Execute(c, steps), step);
      BoundedWork(c, steps);
      BoundedWork(c, more);
      longer := CanComplete(c, more);
    }
  }

  lemma CompleteNeeds(c: Setup, steps: seq<Step>)
    requires SetupOK(c) && Admissible(c, steps) && Complete(Execute(c, steps))
    ensures Completable(c)
  {
    LiveAlways(c, steps);
    var s := Execute(c, steps);
    forall i: nat | i < NumPieces(c.job)
      ensures ProtocolProgress.Offered(Config(c), i)
    {
      ProtocolHanded(c, s, i);
      assert multiset(s.control.handed)[i] == 1;
      assert i in s.control.handed;
    }
    if |c.job.content| > 0 {
      CompletionNeedsFullLastBlock(c, steps);
    }
  }

  lemma Started(c: Setup) returns (steps: seq<Step>)
    requires SetupOK(c)
    ensures Admissible(c, steps) && ProtocolProgress.Lone(Execute(c, steps).control)
  {
    var step := Control(Protocol.Start);
    assert Admissible(c, []) && Enabled(c, Execute(c, []), step);
    steps := OneMore(c, [], step);
    assert Execute(c, []) == Initial(c);
  }

  /** A torrent can be completed without cancelling if and only if there is a worker, every piece is offered
      by some peer, and the last piece is not shorter than a block. */
  lemma CompletesIff(c: Setup)
    requires SetupOK(c)
    ensures Completable(c) <==> exists steps :: Admissible(c, steps) && Complete(Execute(c, steps))
  {
    hide Admissible, Execute, Completable, Complete, ProtocolProgress.Lone;
    if Completable(c) {
      var steps := Started(c);
      steps := CanComplete(c, steps);
      assert Admissible(c, steps) && Complete(Execute(c, steps));
    } else {
      forall steps | Admissible(c, steps)
        ensures !Complete(Execute(c, steps))
      {
        if Complete(Execute(c, steps)) {
          CompleteNeeds(c, steps);
        }
      }
    }
  }
}
