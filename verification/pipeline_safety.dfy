/** The invariant of a piece download, and what it gives once all bytes are counted. */
module PipelineSafety {
  import opened Common
  import opened Blocks
  import opened Pipeline

  // ---------------------------------------------------------------- counting blocks

  lemma {:induction false} FirstBlocksCount(pieceLength: nat, n: nat, b: Block)
    requires n <= BlockCount(pieceLength)
    ensures multiset(FirstBlocks(pieceLength, n))[b]
            == if exists k :: 0 <= k < n && BlockAt(pieceLength, k) == b then 1 else 0
  {
    if n > 0 {
      FirstBlocksCount(pieceLength, n - 1, b);
      assert FirstBlocks(pieceLength, n) == FirstBlocks(pieceLength, n - 1) + [BlockAt(pieceLength, n - 1)];
      if b == BlockAt(pieceLength, n - 1) {
        assert forall k :: 0 <= k < n - 1 ==> BlockAt(pieceLength, k).begin < b.begin;
      }
    }
  }

  /** The bytes of the first n blocks that lie in `done`. */
  function DoneLength(pieceLength: nat, n: nat, done: multiset<Block>): nat
    requires n <= BlockCount(pieceLength)
  {
    if n == 0 then 0
    else DoneLength(pieceLength, n - 1, done)
         + if BlockAt(pieceLength, n - 1) in done then BlockAt(pieceLength, n - 1).length else 0
  }

  lemma {:induction false} DoneLengthAdd(pieceLength: nat, n: nat, done: multiset<Block>, k: nat)
    requires n <= BlockCount(pieceLength) && k < BlockCount(pieceLength) && BlockAt(pieceLength, k) !in done
    ensures DoneLength(pieceLength, n, done + multiset{BlockAt(pieceLength, k)})
            == DoneLength(pieceLength, n, done) + if k < n then BlockAt(pieceLength, k).length else 0
  {
    if n > 0 {
      DoneLengthAdd(pieceLength, n - 1, done, k);
      assert n - 1 != k ==> BlockAt(pieceLength, n - 1) != BlockAt(pieceLength, k);
    }
  }

  lemma {:induction false} DoneLengthBound(pieceLength: nat, n: nat, done: multiset<Block>)
    requires n <= BlockCount(pieceLength)
    ensures DoneLength(pieceLength, n, done) <= Min(BLOCK_LEN * n, pieceLength)
    ensures DoneLength(pieceLength, n, done) == Min(BLOCK_LEN * n, pieceLength)
            <==> forall k :: 0 <= k < n ==> BlockAt(pieceLength, k) in done
  {
    if n > 0 {
      DoneLengthBound(pieceLength, n - 1, done);
      assert BlockAt(pieceLength, n - 1).length > 0;
    }
  }

  lemma {:induction false} DoneLengthEmpty(pieceLength: nat, n: nat)
    requires n <= BlockCount(pieceLength)
    ensures DoneLength(pieceLength, n, multiset{}) == 0
  {
    if n > 0 {
      DoneLengthEmpty(pieceLength, n - 1);
    }
  }

  // ---------------------------------------------------------------- the invariant

  function Unsent(loop: Loop): seq<Block> {
    if loop.Sending? || loop.Counting? then loop.batch else []
  }

  function InRouter(router: Router): multiset<Block> {
    if router.Idle? then multiset{} else multiset{router.block}
  }

  /** Every issued block is in exactly one place. */
  ghost predicate LedgerOK(source: seq<byte>, s: State) {
    && CursorOK(|source|, s.requestIndex, s.endOfPiece)
    && multiset(Unsent(s.loop)) + s.outstanding + s.replies + InRouter(s.router) + multiset(s.answered)
       == multiset(FirstBlocks(|source|, s.requestIndex))
    && (s.loop.Sending? ==> s.loop.batch != [])
  }

  /** nPendingRequest is what was counted out less what was counted back, and at most ten are out. */
  ghost predicate WindowOK(s: State) {
    && s.nPending == s.requestIndex - |Unsent(s.loop)| - One(s.loop.Counting?) - |s.answered| - One(!s.router.Idle?)
    && s.requestIndex - |s.answered| - One(!s.router.Idle?) <= MAX_PENDING_REQUEST
  }

  ghost predicate Agrees(source: seq<byte>, buffer: seq<byte>, b: Block) {
    |buffer| == |source| && InPiece(source, b)
    && forall x :: b.begin <= x < b.begin + b.length ==> buffer[x] == source[x]
  }

  ghost predicate BufferOK(source: seq<byte>, s: State) {
    && (if s.loop.NotBegun? then s.requestIndex == 0 else |s.buffer| == |source|)
    && (forall b :: b in s.answered ==> Agrees(source, s.buffer, b))
    && (s.router.Copied? ==> Agrees(source, s.buffer, s.router.block))
    && s.downloaded == DoneLength(|source|, BlockCount(|source|), multiset(s.answered))
    && (s.loop.Returned? ==> s.downloaded >= |source|)
  }

  ghost predicate Inv(source: seq<byte>, s: State) {
    LedgerOK(source, s) && WindowOK(s) && BufferOK(source, s)
  }

  lemma InitialInv(source: seq<byte>)
    ensures Inv(source, Initial())
  {
    DoneLengthEmpty(|source|, BlockCount(|source|));
  }

  /** A block in the router's hands was issued, is in bounds, and has not been counted yet. */
  lemma RouterBlock(source: seq<byte>, s: State) returns (k: nat)
    requires LedgerOK(source, s) && !s.router.Idle?
    ensures k < s.requestIndex && BlockAt(|source|, k) == s.router.block
    ensures s.router.block !in s.answered && InPiece(source, s.router.block)
  {
    var b := s.router.block;
    FirstBlocksCount(|source|, s.requestIndex, b);
    assert multiset(FirstBlocks(|source|, s.requestIndex))[b] >= 1 + multiset(s.answered)[b];
    k :| k < s.requestIndex && BlockAt(|source|, k) == b;
    BlocksTile(|source|, k);
  }

  /** A call of getNextRequest: nothing new, or the next blocks of the partition. */
  lemma AskedBlocks(source: seq<byte>, s: State)
    requires CursorOK(|source|, s.requestIndex, s.endOfPiece) && WindowOK(s) && Enabled(source, s, Ask)
    ensures var next := NextBatch(source, s).value;
            && next.requestIndex <= BlockCount(|source|) && s.requestIndex <= next.requestIndex
            && next.requests == FirstBlocks(|source|, next.requestIndex)[s.requestIndex..]
            && next.requestIndex - s.requestIndex <= Max(10 - s.nPending, 0)
            && (|source| >= 16384 ==>
                  next.requestIndex == Min(s.requestIndex + Max(10 - s.nPending, 0), (|source| + 16383) / 16384))
            && CursorOK(|source|, next.requestIndex, next.endOfPiece)
  {
    if |source| < BLOCK_LEN {
      // Nothing new can be asked for: the partition is exhausted or the code panics.
      assert NextBatch(source, s) == Some(Batch([], s.requestIndex, s.endOfPiece));
    } else {
      NextRequestsIsSlice(|source|, s.requestIndex, s.endOfPiece, Window(s));
    }
  }

  lemma FirstBlocksSplit(pieceLength: nat, m: nat, n: nat)
    requires m <= n <= BlockCount(pieceLength)
    ensures multiset(FirstBlocks(pieceLength, n))
            == multiset(FirstBlocks(pieceLength, m)) + multiset(FirstBlocks(pieceLength, n)[m..])
  {
    assert FirstBlocks(pieceLength, n) == FirstBlocks(pieceLength, m) + FirstBlocks(pieceLength, n)[m..];
  }

  lemma BatchJoins(batch: multiset<Block>, rest: multiset<Block>, before: multiset<Block>)
    requires rest == before
    ensures batch + rest == before + batch
  {}

  lemma AskKeepsLedger(source: seq<byte>, s: State)
    requires LedgerOK(source, s) && WindowOK(s) && Enabled(source, s, Ask)
    ensures LedgerOK(source, Apply(source, s, Ask))
  {
    hide NextBatch, NextRequests, BlockCount, FirstBlocks, WindowOK;
    AskedBlocks(source, s);
    var next := NextBatch(source, s).value;
    FirstBlocksSplit(|source|, s.requestIndex, next.requestIndex);
    var rest := s.outstanding + s.replies + InRouter(s.router) + multiset(s.answered);
    assert rest == multiset(FirstBlocks(|source|, s.requestIndex));
    BatchJoins(multiset(next.requests), rest, multiset(FirstBlocks(|source|, s.requestIndex)));
    assert Unsent(AfterBatch(next.requests)) == next.requests;
    assert multiset(next.requests) + s.outstanding + s.replies + InRouter(s.router) + multiset(s.answered)
           == multiset(next.requests) + rest;
  }

  lemma AskKeepsWindow(source: seq<byte>, s: State)
    requires LedgerOK(source, s) && WindowOK(s) && Enabled(source, s, Ask)
    ensures WindowOK(Apply(source, s, Ask))
  {
    AskedBlocks(source, s);
    assert |NextBatch(source, s).value.requests| == NextBatch(source, s).value.requestIndex - s.requestIndex;
  }

  lemma AskKeepsBuffer(source: seq<byte>, s: State)
    requires BufferOK(source, s) && Enabled(source, s, Ask)
    ensures BufferOK(source, Apply(source, s, Ask))
  {}

  lemma AskKeepsInv(source: seq<byte>, s: State)
    requires Inv(source, s) && Enabled(source, s, Ask)
    ensures Inv(source, Apply(source, s, Ask))
  {
    hide LedgerOK, WindowOK, BufferOK, Apply, Enabled;
    AskKeepsLedger(source, s);
    AskKeepsWindow(source, s);
    AskKeepsBuffer(source, s);
  }

  lemma BeginKeepsInv(source: seq<byte>, s: State)
    requires Inv(source, s) && Enabled(source, s, Begin)
    ensures Inv(source, Apply(source, s, Begin))
  {
    assert |multiset(FirstBlocks(|source|, s.requestIndex))| == 0;
    assert multiset(s.answered) <= multiset(FirstBlocks(|source|, s.requestIndex));
    assert |multiset(s.answered)| == |s.answered| == 0;
    if !s.router.Idle? {
      var k := RouterBlock(source, s);
    }
  }

  lemma LoopStepKeepsLedger(source: seq<byte>, s: State, step: Step)
    requires LedgerOK(source, s) && Enabled(source, s, step) && (step.Write? || step.Count? || step.Leave?)
    ensures LedgerOK(source, Apply(source, s, step))
  {
    if step.Write? {
      assert s.loop.batch == [s.loop.batch[0]] + s.loop.batch[1..];
      assert multiset(s.loop.batch) == multiset{s.loop.batch[0]} + multiset(s.loop.batch[1..]);
    } else {
      assert Unsent(Apply(source, s, step).loop) == Unsent(s.loop);
    }
  }

  lemma LoopStepKeepsWindow(source: seq<byte>, s: State, step: Step)
    requires WindowOK(s) && Enabled(source, s, step) && (step.Write? || step.Count? || step.Leave?)
    ensures WindowOK(Apply(source, s, step))
  {}

  lemma LoopStepKeepsBuffer(source: seq<byte>, s: State, step: Step)
    requires BufferOK(source, s) && Enabled(source, s, step) && (step.Write? || step.Count? || step.Leave?)
    ensures BufferOK(source, Apply(source, s, step))
  {}

  lemma LoopStepKeepsInv(source: seq<byte>, s: State, step: Step)
    requires Inv(source, s) && Enabled(source, s, step) && (step.Write? || step.Count? || step.Leave?)
    ensures Inv(source, Apply(source, s, step))
  {
    hide LedgerOK, WindowOK, BufferOK, Apply, Enabled;
    LoopStepKeepsLedger(source, s, step);
    LoopStepKeepsWindow(source, s, step);
    LoopStepKeepsBuffer(source, s, step);
  }

  /** A block still on its way is not done, so the piece is not complete and the reply is not dropped. */
  lemma ReplyIsWanted(source: seq<byte>, s: State, b: Block)
    requires LedgerOK(source, s) && BufferOK(source, s) && b in s.replies
    ensures s.downloaded < |source|
  {
    FirstBlocksCount(|source|, s.requestIndex, b);
    assert multiset(FirstBlocks(|source|, s.requestIndex))[b] >= 1 + multiset(s.answered)[b];
    var k :| 0 <= k < s.requestIndex && BlockAt(|source|, k) == b;
    DoneLengthBound(|source|, BlockCount(|source|), multiset(s.answered));
  }

  lemma MovedOn(u: multiset<Block>, from: multiset<Block>, to: multiset<Block>, v: multiset<Block>, w: multiset<Block>,
                b: Block)
    requires b in from
    ensures u + (from - multiset{b}) + (to + multiset{b}) + v + w == u + from + to + v + w
  {}

  lemma MovedIn(u: multiset<Block>, o: multiset<Block>, s: State, t: State, w: multiset<Block>)
    requires s.router.Idle? && t.router.Uncounted? && t.router.block in s.replies
    requires t.replies == s.replies - multiset{t.router.block}
    ensures u + o + t.replies + InRouter(t.router) + w == u + o + s.replies + InRouter(s.router) + w
  {}

  /** A reply moves a block from the outstanding ones to the replies. */
  lemma ReplyKeepsLedger(source: seq<byte>, s: State, b: Block)
    requires LedgerOK(source, s) && Enabled(source, s, Reply(b))
    ensures LedgerOK(source, Apply(source, s, Reply(b)))
  {
    hide FirstBlocks, CursorOK, BlockCount;
    MovedOn(multiset(Unsent(s.loop)), s.outstanding, s.replies, InRouter(s.router), multiset(s.answered), b);
  }

  /** A reply received moves from the replies to the router. */
  lemma ReceiveKeepsLedger(source: seq<byte>, s: State, b: Block)
    requires LedgerOK(source, s) && Enabled(source, s, Receive(b)) && s.downloaded < |source|
    ensures LedgerOK(source, Apply(source, s, Receive(b)))
  {
    hide FirstBlocks, CursorOK, BlockCount;
    var t := Apply(source, s, Receive(b));
    MovedIn(multiset(Unsent(s.loop)), s.outstanding, s, t, multiset(s.answered));
    hide Apply;
  }

  lemma MessageStepKeepsRest(source: seq<byte>, s: State, step: Step)
    requires WindowOK(s) && BufferOK(source, s) && Enabled(source, s, step) && (step.Reply? || step.Receive?)
    requires step.Receive? ==> s.downloaded < |source|
    ensures WindowOK(Apply(source, s, step)) && BufferOK(source, Apply(source, s, step))
  {}

  lemma MessageStepKeepsInv(source: seq<byte>, s: State, step: Step)
    requires Inv(source, s) && Enabled(source, s, step) && (step.Reply? || step.Receive?)
    ensures Inv(source, Apply(source, s, step))
  {
    if step.Receive? {
      ReplyIsWanted(source, s, step.block);
      ReceiveKeepsLedger(source, s, step.block);
    } else {
      ReplyKeepsLedger(source, s, step.block);
    }
    MessageStepKeepsRest(source, s, step);
  }

  lemma CopyKeepsInv(source: seq<byte>, s: State)
    requires Inv(source, s) && Enabled(source, s, Copy)
    ensures Inv(source, Apply(source, s, Copy))
  {
    var next := Apply(source, s, Copy);
    var k := RouterBlock(source, s);
    assert |s.buffer| == |source| by {
      assert s.requestIndex > 0;
    }
    forall b | b in s.answered
      ensures Agrees(source, next.buffer, b)
    {
      assert Agrees(source, s.buffer, b);
    }
  }

  lemma AddKeepsInv(source: seq<byte>, s: State)
    requires Inv(source, s) && Enabled(source, s, Add)
    ensures Inv(source, Apply(source, s, Add))
  {
    var next := Apply(source, s, Add);
    var k := RouterBlock(source, s);
    assert multiset(next.answered) == multiset(s.answered) + multiset{s.router.block};
    DoneLengthAdd(|source|, BlockCount(|source|), multiset(s.answered), k);
  }

  lemma StepKeepsInv(source: seq<byte>, s: State, step: Step)
    requires Inv(source, s) && Enabled(source, s, step)
    ensures Inv(source, Apply(source, s, step))
  {
    match step
    case Begin => BeginKeepsInv(source, s);
    case Ask => AskKeepsInv(source, s);
    case Reply(_) => MessageStepKeepsInv(source, s, step);
    case Receive(_) => MessageStepKeepsInv(source, s, step);
    case Copy => CopyKeepsInv(source, s);
    case Add => AddKeepsInv(source, s);
    case _ => LoopStepKeepsInv(source, s, step);
  }

  lemma {:induction false} InvAlways(source: seq<byte>, steps: seq<Step>)
    requires Admissible(source, steps)
    ensures Inv(source, Execute(source, steps))
    decreases |steps|
  {
    if steps == [] {
      InitialInv(source);
    } else {
      InvAlways(source, steps[..|steps| - 1]);
      StepKeepsInv(source, Execute(source, steps[..|steps| - 1]), steps[|steps| - 1]);
    }
  }

  // ---------------------------------------------------------------- consequences

  /** Counting as many bytes as the piece has means that the buffer is the piece. */
  lemma FullMeansSource(source: seq<byte>, s: State)
    requires Inv(source, s) && s.downloaded >= |source| > 0
    ensures s.buffer == source
  {
    DoneLengthBound(|source|, BlockCount(|source|), multiset(s.answered));
    BlocksTile(|source|, 0);
    assert BlockAt(|source|, 0) in s.answered;
    assert Agrees(source, s.buffer, BlockAt(|source|, 0));
    forall x | 0 <= x < |source|
      ensures s.buffer[x] == source[x]
    {
      BlockOfOffset(|source|, x);
      assert Agrees(source, s.buffer, BlockAt(|source|, x / BLOCK_LEN));
    }
  }

  lemma ReturnedMeansSource(source: seq<byte>, steps: seq<Step>)
    requires Admissible(source, steps) && Execute(source, steps).loop.Returned?
    ensures Execute(source, steps).buffer == source
  {
    InvAlways(source, steps);
    if |source| > 0 {
      FullMeansSource(source, Execute(source, steps));
    }
  }

  /** Requests are a prefix of the partition; at most ten are unanswered; at the loop head the counter is
      exactly their number, although it may lag or lead while a batch is being sent. */
  lemma WindowDiscipline(source: seq<byte>, steps: seq<Step>)
    requires Admissible(source, steps)
    ensures var s := Execute(source, steps);
            && |s.outstanding| + |s.replies| <= 10
            && (s.loop.AtHead? ==> s.nPending == |s.outstanding| + |s.replies|)
            && s.requestIndex <= (|source| + 16383) / 16384
            && multiset(Unsent(s.loop)) + s.outstanding + s.replies + InRouter(s.router) + multiset(s.answered)
               == multiset(FirstBlocks(|source|, s.requestIndex))
  {
    InvAlways(source, steps);
    var s := Execute(source, steps);
    assert |multiset(Unsent(s.loop)) + s.outstanding + s.replies + InRouter(s.router) + multiset(s.answered)|
           == |Unsent(s.loop)| + |s.outstanding| + |s.replies| + One(!s.router.Idle?) + |s.answered|;
    assert |multiset(FirstBlocks(|source|, s.requestIndex))| == s.requestIndex;
  }

  /** What asking leaves unsent are the blocks between the two cursors. */
  lemma AskedCount(source: seq<byte>, s: State)
    requires CursorOK(|source|, s.requestIndex, s.endOfPiece) && WindowOK(s) && Enabled(source, s, Ask)
    requires |source| >= 16384
    ensures |Unsent(Apply(source, s, Ask).loop)|
            == Min(s.requestIndex + Max(10 - s.nPending, 0), (|source| + 16383) / 16384) - s.requestIndex
  {
    AskedBlocks(source, s);
    hide NextBatch, WindowOK, CursorOK;
  }

  lemma AskKeepsMessages(source: seq<byte>, s: State)
    requires Enabled(source, s, Ask)
    ensures var t := Apply(source, s, Ask); t.outstanding == s.outstanding && t.replies == s.replies
  {
    hide NextBatch;
  }

  lemma HeadCounter(source: seq<byte>, steps: seq<Step>)
    requires Admissible(source, steps) && Execute(source, steps).loop.AtHead?
    ensures var s := Execute(source, steps);
            && CursorOK(|source|, s.requestIndex, s.endOfPiece) && WindowOK(s)
            && s.nPending == |s.outstanding| + |s.replies| <= 10
            && s.requestIndex <= (|source| + 16383) / 16384
  {
    WindowDiscipline(source, steps);
    InvAlways(source, steps);
    hide Execute, Admissible, WindowOK, BufferOK, FirstBlocks, InRouter, Unsent;
  }

  lemma MinShift(from: int, pending: int, count: int)
    requires pending <= 10 && from <= count
    ensures pending + Min(from + Max(10 - pending, 0), count) - from == Min(10, pending + count - from)
  {}

  /** A turn of the loop fills the window: afterwards ten requests are unanswered, sent or about to be sent, or
      all that the piece has. */
  lemma WindowIsFilled(source: seq<byte>, steps: seq<Step>)
    requires Admissible(source, steps) && |source| >= 16384
    requires Execute(source, steps).loop.AtHead? && Enabled(source, Execute(source, steps), Ask)
    ensures var s := Execute(source, steps);
            var t := Apply(source, s, Ask);
            |Unsent(t.loop)| + |t.outstanding| + |t.replies|
            == Min(10, |s.outstanding| + |s.replies| + (|source| + 16383) / 16384 - s.requestIndex)
  {
    hide *;
    HeadCounter(source, steps);
    AskedCount(source, Execute(source, steps));
    AskKeepsMessages(source, Execute(source, steps));
    MinShift(Execute(source, steps).requestIndex, Execute(source, steps).nPending, (|source| + 16383) / 16384);
  }

  // ---------------------------------------------------------------- when the loop turns, and what the buffer holds

  lemma AllInMeansAllCounted(source: seq<byte>, s: State)
    requires LedgerOK(source, s)
    requires forall k :: 0 <= k < BlockCount(|source|) ==> BlockAt(|source|, k) in s.answered
    ensures |s.answered| >= BlockCount(|source|)
  {
    var all, done := multiset(FirstBlocks(|source|, BlockCount(|source|))), multiset(s.answered);
    forall b
      ensures all[b] <= done[b]
    {
      FirstBlocksCount(|source|, BlockCount(|source|), b);
    }
    assert done == all + (done - all);
    assert |all| == BlockCount(|source|);
  }

  lemma AllCountedMeansAllIn(source: seq<byte>, s: State)
    requires LedgerOK(source, s) && |s.answered| >= BlockCount(|source|)
    ensures forall k :: 0 <= k < BlockCount(|source|) ==> BlockAt(|source|, k) in s.answered
    ensures |s.answered| == BlockCount(|source|)
  {
    var n, blocks := s.requestIndex, FirstBlocks(|source|, s.requestIndex);
    var rest := multiset(Unsent(s.loop)) + s.outstanding + s.replies + InRouter(s.router);
    assert rest + multiset(s.answered) == multiset(blocks);
    assert |multiset(blocks)| == n && |multiset(s.answered)| == |s.answered|;
    assert |rest| == 0;
    assert multiset(s.answered) == multiset(blocks);
    forall k | 0 <= k < BlockCount(|source|)
      ensures BlockAt(|source|, k) in s.answered
    {
      assert blocks[k] == BlockAt(|source|, k);
      assert BlockAt(|source|, k) in multiset(s.answered);
    }
  }

  lemma FullIffAllIn(source: seq<byte>, s: State)
    requires Inv(source, s)
    ensures s.downloaded >= |source| <==> |s.answered| == BlockCount(|source|)
    ensures |s.answered| <= BlockCount(|source|)
  {
    DoneLengthBound(|source|, BlockCount(|source|), multiset(s.answered));
    assert forall b :: b in multiset(s.answered) <==> b in s.answered;
    if |s.answered| >= BlockCount(|source|) {
      AllCountedMeansAllIn(source, s);
    }
    if s.downloaded >= |source| {
      AllInMeansAllCounted(source, s);
    }
  }

  /** At its head, the loop is left if and only if every block was answered, and turns as long as one was not. */
  lemma LoopTurnsIff(source: seq<byte>, steps: seq<Step>)
    requires Admissible(source, steps) && Execute(source, steps).loop.AtHead? && (|source| >= 16384 || source == [])
    ensures var s := Execute(source, steps);
            && (Enabled(source, s, Leave) <==> |s.answered| == (|source| + 16383) / 16384)
            && (Enabled(source, s, Ask) <==> |s.answered| < (|source| + 16383) / 16384)
  {
    var s := Execute(source, steps);
    InvAlways(source, steps);
    FullIffAllIn(source, s);
    if |source| >= 16384 {
      NextRequestsIsSlice(|source|, s.requestIndex, s.endOfPiece, Window(s));
    }
    hide NextRequests, Execute, Admissible, FirstBlocks, BlockAt, DoneLength;
  }

  /** Bytes of blocks that have not come in are still zero. */
  ghost predicate Zeroed(source: seq<byte>, s: State) {
    !s.loop.NotBegun? ==>
      && |s.buffer| == |source|
      && forall x: nat :: x < |source| ==> Missing(source, s, x) ==> s.buffer[x] == 0
  }

  /** The block of byte x was neither counted nor copied. */
  predicate Missing(source: seq<byte>, s: State, x: nat)
    requires x < |source|
  {
    BlockOfOffset(|source|, x);
    var b := BlockAt(|source|, x / BLOCK_LEN);
    b !in s.answered && s.router != Copied(b)
  }

  lemma CopyKeepsZeroed(source: seq<byte>, s: State)
    requires Inv(source, s) && Enabled(source, s, Copy) && Zeroed(source, s)
    ensures Zeroed(source, Apply(source, s, Copy))
  {
    var t := Apply(source, s, Copy);
    var k := RouterBlock(source, s);
    forall x: nat | x < |source| && Missing(source, t, x)
      ensures t.buffer[x] == 0
    {
      BlockOfOffset(|source|, x);
      BlocksTile(|source|, k);
      assert x / BLOCK_LEN != k;
    }
  }

  lemma StepKeepsZeroed(source: seq<byte>, s: State, step: Step)
    requires Inv(source, s) && Enabled(source, s, step) && Zeroed(source, s)
    ensures Zeroed(source, Apply(source, s, step))
  {
    match step
    case Copy => CopyKeepsZeroed(source, s);
    case Ask => hide NextBatch;
    case _ =>
      var t := Apply(source, s, step);
      assert step.Begin? || t.buffer == s.buffer;
  }

  lemma {:induction false} ZeroedAlways(source: seq<byte>, steps: seq<Step>)
    requires Admissible(source, steps)
    ensures Zeroed(source, Execute(source, steps))
    decreases |steps|
  {
    if steps != [] {
      var before := steps[..|steps| - 1];
      ZeroedAlways(source, before);
      InvAlways(source, before);
      StepKeepsZeroed(source, Execute(source, before), steps[|steps| - 1]);
    }
  }

  /** At any moment after the start, byte x of the buffer is the piece's if its block was copied, and zero if not. */
  lemma BufferIsExact(source: seq<byte>, steps: seq<Step>, x: nat)
    requires Admissible(source, steps) && !Execute(source, steps).loop.NotBegun? && x < |source|
    ensures x / 16384 < BlockCount(|source|) && x < |Execute(source, steps).buffer|
    ensures var s := Execute(source, steps);
            var b := BlockAt(|source|, x / 16384);
            s.buffer[x] == if b in s.answered || s.router == Copied(b) then source[x] else 0
  {
    var s := Execute(source, steps);
    InvAlways(source, steps);
    ZeroedAlways(source, steps);
    BlockOfOffset(|source|, x);
    var b := BlockAt(|source|, x / 16384);
    if b in s.answered || s.router == Copied(b) {
      assert Agrees(source, s.buffer, b);
    } else {
      assert Missing(source, s, x);
    }
  }
}
