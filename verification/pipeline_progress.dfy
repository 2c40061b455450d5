/** Termination of a piece download with an honest peer, and the pieces for which it is impossible. */
module PipelineProgress {
  import opened Common
  import opened Blocks
  import opened Pipeline
  import opened PipelineSafety

  /** How far each block still has to go, summed up, plus what the loop itself has left to do. */
  function Rank(source: seq<byte>, s: State): int {
    7 * (BlockCount(|source|) - s.requestIndex)
    + 6 * |Unsent(s.loop)| + One(s.loop.Counting?)
    + 4 * |s.outstanding| + 3 * |s.replies|
    + (match s.router case Idle => 0 case Uncounted(_) => 2 case Copied(_) => 1)
    + (match s.loop case NotBegun => 2 case Returned => 0 case _ => 1)
  }

  /** A turn of the loop that finds nothing to ask for. */
  predicate Spins(source: seq<byte>, s: State, step: Step)
    requires Enabled(source, s, step)
  {
    step.Ask? && NextBatch(source, s).value.requests == []
  }

  lemma RankNonNegative(source: seq<byte>, s: State)
    requires LedgerOK(source, s)
    ensures Rank(source, s) >= 0
  {}

  lemma AskDrops(source: seq<byte>, s: State)
    requires LedgerOK(source, s) && WindowOK(s) && Enabled(source, s, Ask)
    ensures Rank(source, Apply(source, s, Ask)) + One(!Spins(source, s, Ask)) <= Rank(source, s)
  {
    hide NextRequests, BlockCount;
    AskedBlocks(source, s);
  }

  lemma LoopStepDrops(source: seq<byte>, s: State, step: Step)
    requires Enabled(source, s, step) && (step.Begin? || step.Write? || step.Count? || step.Leave?)
    ensures Rank(source, Apply(source, s, step)) < Rank(source, s)
  {
    if step.Write? {
      assert |s.outstanding + multiset{s.loop.batch[0]}| == |s.outstanding| + 1;
    }
  }

  lemma MessageStepDrops(source: seq<byte>, s: State, step: Step)
    requires Enabled(source, s, step) && (step.Reply? || step.Receive? || step.Copy? || step.Add?)
    ensures Rank(source, Apply(source, s, step)) < Rank(source, s)
  {
    if step.Reply? {
      assert |s.outstanding - multiset{step.block}| == |s.outstanding| - 1;
      assert |s.replies + multiset{step.block}| == |s.replies| + 1;
    } else if step.Receive? {
      assert |s.replies - multiset{step.block}| == |s.replies| - 1;
    }
  }

  lemma RankDrops(source: seq<byte>, s: State, step: Step)
    requires Inv(source, s) && Enabled(source, s, step)
    ensures Rank(source, Apply(source, s, step)) + One(!Spins(source, s, step)) <= Rank(source, s)
  {
    match step
    case Ask => AskDrops(source, s);
    case Begin => LoopStepDrops(source, s, step);
    case Write => LoopStepDrops(source, s, step);
    case Count => LoopStepDrops(source, s, step);
    case Leave => LoopStepDrops(source, s, step);
    case _ => MessageStepDrops(source, s, step);
  }

  predicate Fits(source: seq<byte>) {
    |source| >= 16384 || source == []
  }

  lemma AllAnswered(source: seq<byte>, s: State)
    requires LedgerOK(source, s) && s.loop.AtHead?
    requires s.outstanding == multiset{} && s.replies == multiset{} && s.router.Idle?
    ensures multiset(s.answered) == multiset(FirstBlocks(|source|, s.requestIndex)) && |s.answered| == s.requestIndex
  {
    assert multiset(s.answered) == multiset(FirstBlocks(|source|, s.requestIndex));
    assert |multiset(s.answered)| == |s.answered|
        && |multiset(FirstBlocks(|source|, s.requestIndex))| == s.requestIndex;
  }

  /** A piece whose blocks were all issued and answered is full. */
  lemma AllAnsweredIsFull(source: seq<byte>, s: State)
    requires LedgerOK(source, s) && BufferOK(source, s) && s.requestIndex == BlockCount(|source|)
    requires multiset(s.answered) == multiset(FirstBlocks(|source|, s.requestIndex))
    ensures s.downloaded >= |source|
  {
    DoneLengthBound(|source|, BlockCount(|source|), multiset(s.answered));
    forall k | 0 <= k < s.requestIndex
      ensures BlockAt(|source|, k) in multiset(s.answered)
    {
      assert FirstBlocks(|source|, s.requestIndex)[k] == BlockAt(|source|, k);
    }
  }

  /** While bytes are missing, something is on its way or the next call of getNextRequest is not empty. */
  lemma NeverStarved(source: seq<byte>, s: State)
    requires Inv(source, s) && |source| >= BLOCK_LEN && s.loop.AtHead? && s.downloaded < |source|
    ensures s.outstanding != multiset{} || s.replies != multiset{} || !s.router.Idle?
            || (NextBatch(source, s).Some? && NextBatch(source, s).value.requests != [])
  {
    if s.outstanding == multiset{} && s.replies == multiset{} && s.router.Idle? {
      AllAnswered(source, s);
      if s.requestIndex == BlockCount(|source|) {
        AllAnsweredIsFull(source, s);
      }
      NextRequestsIsSlice(|source|, s.requestIndex, s.endOfPiece, Window(s));
      hide NextRequests, FirstBlocks, BlockCount, BlockAt, DoneLength, Agrees;
    }
  }

  /** Until the download returns, some step that is not a spin is possible. */
  lemma CanProceed(source: seq<byte>, s: State) returns (step: Step)
    requires Inv(source, s) && Fits(source) && !s.loop.Returned?
    ensures Enabled(source, s, step) && !Spins(source, s, step)
  {
    if s.loop.NotBegun? {
      step := Begin;
    } else if s.loop.Sending? {
      step := Write;
    } else if s.loop.Counting? {
      step := Count;
    } else if s.downloaded >= |source| {
      step := Leave;
    } else if s.router.Uncounted? {
      var k := RouterBlock(source, s);
      step := Copy;
    } else if s.router.Copied? {
      step := Add;
    } else if s.replies != multiset{} {
      var b :| b in s.replies;
      step := Receive(b);
    } else if s.outstanding != multiset{} {
      var b :| b in s.outstanding;
      step := Reply(b);
    } else {
      NeverStarved(source, s);
      step := Ask;
    }
  }

  function Productive(source: seq<byte>, steps: seq<Step>): nat
    requires Admissible(source, steps)
    decreases |steps|
  {
    if steps == [] then 0
    else
      var before := steps[..|steps| - 1];
      Productive(source, before) + One(!Spins(source, Execute(source, before), steps[|steps| - 1]))
  }

  lemma LastStepDrops(source: seq<byte>, steps: seq<Step>)
    requires Admissible(source, steps) && steps != []
    ensures var s := Execute(source, steps[..|steps| - 1]);
            Rank(source, Execute(source, steps)) + One(!Spins(source, s, steps[|steps| - 1])) <= Rank(source, s)
  {
    InvAlways(source, steps[..|steps| - 1]);
    RankDrops(source, Execute(source, steps[..|steps| - 1]), steps[|steps| - 1]);
  }

  lemma {:induction false} WorkAndRank(source: seq<byte>, steps: seq<Step>)
    requires Admissible(source, steps)
    ensures Productive(source, steps) + Rank(source, Execute(source, steps)) <= 7 * BlockCount(|source|) + 2
    decreases |steps|
  {
    if steps != [] {
      WorkAndRank(source, steps[..|steps| - 1]);
      LastStepDrops(source, steps);
    }
  }

  /** No run has more than 7 steps per block, plus two, that are not spins. */
  lemma BoundedWork(source: seq<byte>, steps: seq<Step>)
    requires Admissible(source, steps)
    ensures Productive(source, steps) <= 7 * BlockCount(|source|) + 2
  {
    WorkAndRank(source, steps);
    InvAlways(source, steps);
    RankNonNegative(source, Execute(source, steps));
  }

  // ---------------------------------------------------------------- when a download can return at all

  lemma ProceedOnce(source: seq<byte>, steps: seq<Step>) returns (more: seq<Step>)
    requires Fits(source) && Admissible(source, steps) && !Execute(source, steps).loop.Returned?
    ensures Admissible(source, more) && steps <= more
    ensures 0 <= Rank(source, Execute(source, more)) < Rank(source, Execute(source, steps))
  {
    InvAlways(source, steps);
    var step := CanProceed(source, Execute(source, steps));
    more := steps + [step];
    assert more[..|more| - 1] == steps;
    LastStepDrops(source, more);
    InvAlways(source, more);
    RankNonNegative(source, Execute(source, more));
  }

  /** Any run can be continued until the download returns. */
  lemma {:induction false} CanFinish(source: seq<byte>, steps: seq<Step>) returns (longer: seq<Step>)
    requires Fits(source) && Admissible(source, steps)
    ensures steps <= longer && Admissible(source, longer) && Execute(source, longer).loop.Returned?
    decreases Rank(source, Execute(source, steps))
  {
    if Execute(source, steps).loop.Returned? {
      longer := steps;
    } else {
      var more := ProceedOnce(source, steps);
      longer := CanFinish(source, more);
    }
  }

  /** Nothing was ever asked for, and the loop has at most entered. */
  predicate Stuck(s: State) {
    && (s.loop.NotBegun? || s.loop.AtHead?)
    && s.requestIndex == s.downloaded == 0 && s.nPending == 0 && !s.endOfPiece
    && s.outstanding == s.replies == multiset{} && s.router.Idle?
  }

  /** On a piece shorter than a block the first request divides by zero: only entering the loop is possible. */
  lemma StuckStays(source: seq<byte>, s: State, step: Step)
    requires !Fits(source) && Stuck(s) && Enabled(source, s, step)
    ensures step.Begin? && Stuck(Apply(source, s, step))
  {
    NextRequestsPanics(|source|, MAX_PENDING_REQUEST);
  }

  lemma {:induction false} ShortPieceStuck(source: seq<byte>, steps: seq<Step>)
    requires !Fits(source) && Admissible(source, steps)
    ensures Stuck(Execute(source, steps))
    decreases |steps|
  {
    if steps != [] {
      ShortPieceStuck(source, steps[..|steps| - 1]);
      StuckStays(source, Execute(source, steps[..|steps| - 1]), steps[|steps| - 1]);
    }
  }

  /** A download can return exactly for the pieces of at least one block, and for an empty one. */
  lemma ReturnsIffFits(source: seq<byte>)
    ensures Fits(source) <==> exists steps :: Admissible(source, steps) && Execute(source, steps).loop.Returned?
  {
    if Fits(source) {
      var steps := CanFinish(source, []);
    } else {
      forall steps | Admissible(source, steps)
        ensures !Execute(source, steps).loop.Returned?
      {
        ShortPieceStuck(source, steps);
      }
    }
  }
}
