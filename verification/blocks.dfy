/** How a piece is cut into block requests: the arithmetic of getBlockRequestInfo and getNextRequest. */
module Blocks {
  import opened Common

  const BLOCK_LEN: nat := 16384

  /** The range of one request within its piece. */
  datatype Block = Block(begin: nat, length: nat)

  datatype BlockInfo = BlockInfo(block: Block, endOfPiece: bool)

  /** None stands for the panic of an integer division by zero. */
  function BlockRequestInfo(pieceLength: nat, index: nat): Option<BlockInfo> {
    var startIndex := BLOCK_LEN * index;
    if BLOCK_LEN + startIndex > pieceLength then
      if startIndex == 0 then None
      else
        var lastBlockLength := pieceLength % startIndex;
        Some(BlockInfo(Block(startIndex, lastBlockLength), startIndex + lastBlockLength == pieceLength))
    else
      Some(BlockInfo(Block(startIndex, BLOCK_LEN), BLOCK_LEN + startIndex == pieceLength))
  }

  // ---------------------------------------------------------------- the partition of a piece

  function BlockCount(pieceLength: nat): nat {
    (pieceLength + BLOCK_LEN - 1) / BLOCK_LEN
  }

  function BlockAt(pieceLength: nat, k: nat): Block
    requires k < BlockCount(pieceLength)
  {
    Block(BLOCK_LEN * k, Min(BLOCK_LEN, pieceLength - BLOCK_LEN * k))
  }

  function FirstBlocks(pieceLength: nat, n: nat): seq<Block>
    requires n <= BlockCount(pieceLength)
  {
    seq(n, k requires 0 <= k < n => BlockAt(pieceLength, k))
  }

  /** The blocks lie end to end, none is empty, and the last one ends where the piece ends. */
  lemma BlocksTile(pieceLength: nat, k: nat)
    requires k < BlockCount(pieceLength)
    ensures var b := BlockAt(pieceLength, k);
            && b.begin == 16384 * k && b.length == Min(16384, pieceLength - 16384 * k)
            && b.length > 0 && b.begin + b.length <= pieceLength
            && (if k + 1 < BlockCount(pieceLength) then b.begin + b.length == BlockAt(pieceLength, k + 1).begin
                else b.begin + b.length == pieceLength)
  {}

  lemma BlockOfOffset(pieceLength: nat, x: nat)
    requires x < pieceLength
    ensures x / 16384 < BlockCount(pieceLength)
    ensures var b := BlockAt(pieceLength, x / 16384); b.begin <= x < b.begin + b.length
  {}

  lemma ModOnce(a: nat, m: nat)
    requires m <= a < 2 * m
    ensures a % m == a - m
  {
    assert a / m == 1;
  }

  /** At every index the code reaches, the modulus is the rest of the piece; it panics only at index 0 of a
      piece shorter than one block. */
  lemma RequestInfoIsBlock(pieceLength: nat, k: nat)
    requires k < BlockCount(pieceLength)
    ensures BlockRequestInfo(pieceLength, k)
            == if pieceLength < 16384 then None
               else Some(BlockInfo(BlockAt(pieceLength, k), k == BlockCount(pieceLength) - 1))
  {
    if pieceLength >= BLOCK_LEN && BLOCK_LEN + BLOCK_LEN * k > pieceLength {
      ModOnce(pieceLength, BLOCK_LEN * k);
    }
  }

  // ---------------------------------------------------------------- getNextRequest

  datatype Batch = Batch(requests: seq<Block>, requestIndex: nat, endOfPiece: bool)

  /** The loop of getNextRequest from index i on, with n rounds left. */
  function Collect(pieceLength: nat, i: nat, n: int): Option<Batch>
    decreases n
  {
    if n <= 0 then Some(Batch([], i, false))
    else
      match BlockRequestInfo(pieceLength, i)
      case None => None
      case Some(info) =>
        if info.endOfPiece then Some(Batch([info.block], i + 1, true))
        else
          match Collect(pieceLength, i + 1, n - 1)
          case None => None
          case Some(rest) => Some(rest.(requests := [info.block] + rest.requests))
  }

  /** A batch whose first requests were collected before the rest. */
  function Prefixed(before: seq<Block>, rest: Option<Batch>): Option<Batch> {
    match rest
    case None => None
    case Some(b) => Some(b.(requests := before + b.requests))
  }

  lemma PrefixedEmpty(before: seq<Block>, rest: Option<Batch>)
    ensures Prefixed([], rest) == rest
    ensures rest.Some? && rest.value.requests == [] ==> Prefixed(before, rest) == Some(rest.value.(requests := before))
  {
    if rest.Some? {
      assert [] + rest.value.requests == rest.value.requests;
      assert before + [] == before;
    }
  }

  /** No rounds are left. */
  lemma CollectDone(pieceLength: nat, before: seq<Block>, i: nat, n: int)
    requires n <= 0
    ensures Prefixed(before, Collect(pieceLength, i, n)) == Some(Batch(before, i, false))
  {
    PrefixedEmpty(before, Collect(pieceLength, i, n));
  }

  lemma CollectStep(pieceLength: nat, before: seq<Block>, i: nat, n: int)
    requires n > 0
    ensures var info := BlockRequestInfo(pieceLength, i);
            Prefixed(before, Collect(pieceLength, i, n))
            == (match info
                case None => None
                case Some(f) => if f.endOfPiece then Some(Batch(before + [f.block], i + 1, true))
                                else Prefixed(before + [f.block], Collect(pieceLength, i + 1, n - 1)))
  {
    var info := BlockRequestInfo(pieceLength, i);
    if info.Some? && !info.value.endOfPiece {
      var rest := Collect(pieceLength, i + 1, n - 1);
      if rest.Some? {
        assert before + ([info.value.block] + rest.value.requests)
               == (before + [info.value.block]) + rest.value.requests;
      }
    }
  }

  function NextRequests(pieceLength: nat, requestIndex: nat, endOfPiece: bool, nRequest: int): Option<Batch> {
    if endOfPiece then Some(Batch([], requestIndex, true)) else Collect(pieceLength, requestIndex, nRequest)
  }

  /** The cursor is at a block of the piece, and endOfPiece tells whether any block is left. */
  predicate CursorOK(pieceLength: nat, requestIndex: nat, endOfPiece: bool) {
    && requestIndex <= BlockCount(pieceLength)
    && (endOfPiece ==> requestIndex == BlockCount(pieceLength))
    && (requestIndex == BlockCount(pieceLength) && pieceLength > 0 ==> endOfPiece)
  }

  function Advance(pieceLength: nat, requestIndex: nat, nRequest: int): nat
    requires requestIndex <= BlockCount(pieceLength)
  {
    Min(requestIndex + Max(nRequest, 0), BlockCount(pieceLength))
  }

  lemma {:induction false} CollectIsSlice(pieceLength: nat, i: nat, n: int)
    requires pieceLength >= BLOCK_LEN && i < BlockCount(pieceLength)
    ensures var end := Advance(pieceLength, i, n);
            Collect(pieceLength, i, n)
            == Some(Batch(FirstBlocks(pieceLength, end)[i..], end, end == BlockCount(pieceLength)))
    decreases n
  {
    if n <= 0 {
      assert FirstBlocks(pieceLength, i)[i..] == [];
    } else {
      RequestInfoIsBlock(pieceLength, i);
      var end := Advance(pieceLength, i, n);
      var blocks := FirstBlocks(pieceLength, end)[i..];
      if i + 1 < BlockCount(pieceLength) {
        CollectIsSlice(pieceLength, i + 1, n - 1);
        assert blocks == [BlockAt(pieceLength, i)] + FirstBlocks(pieceLength, end)[i + 1..];
      } else {
        assert blocks == [BlockAt(pieceLength, i)];
      }
    }
  }

  /** One call hands out the next blocks of the partition, as many as asked for and left. */
  lemma NextRequestsIsSlice(pieceLength: nat, requestIndex: nat, endOfPiece: bool, nRequest: int)
    requires pieceLength >= BLOCK_LEN && CursorOK(pieceLength, requestIndex, endOfPiece)
    ensures var end := Advance(pieceLength, requestIndex, nRequest);
            NextRequests(pieceLength, requestIndex, endOfPiece, nRequest)
            == Some(Batch(FirstBlocks(pieceLength, end)[requestIndex..], end, end == BlockCount(pieceLength)))
  {
    if endOfPiece {
      assert FirstBlocks(pieceLength, requestIndex)[requestIndex..] == [];
    } else {
      CollectIsSlice(pieceLength, requestIndex, nRequest);
    }
  }

  /** From a fresh cursor, asking for anything panics exactly on the pieces shorter than a block. */
  lemma NextRequestsPanics(pieceLength: nat, nRequest: int)
    ensures NextRequests(pieceLength, 0, false, nRequest).None? <==> nRequest > 0 && pieceLength < 16384
  {
    if pieceLength >= BLOCK_LEN {
      NextRequestsIsSlice(pieceLength, 0, false, nRequest);
    }
  }

  // ---------------------------------------------------------------- any sequence of windows

  /** The requests of successive calls, one per window size, put end to end. */
  function AllRequests(pieceLength: nat, windows: seq<int>): Option<Batch>
    decreases |windows|
  {
    if windows == [] then Some(Batch([], 0, false))
    else
      match AllRequests(pieceLength, windows[..|windows| - 1])
      case None => None
      case Some(before) =>
        match NextRequests(pieceLength, before.requestIndex, before.endOfPiece, windows[|windows| - 1])
        case None => None
        case Some(now) => Some(now.(requests := before.requests + now.requests))
  }

  /** However the window sizes are chosen, zero and negative ones included, the requests made so far are a
      prefix of the partition, and endOfPiece is set exactly when they are all of it. */
  lemma {:induction false} BatchIndependence(pieceLength: nat, windows: seq<int>)
    requires pieceLength >= BLOCK_LEN
    ensures AllRequests(pieceLength, windows).Some?
    ensures var all := AllRequests(pieceLength, windows).value;
            && CursorOK(pieceLength, all.requestIndex, all.endOfPiece)
            && all.requests == FirstBlocks(pieceLength, all.requestIndex)
            && (all.endOfPiece <==> all.requests == FirstBlocks(pieceLength, BlockCount(pieceLength)))
    decreases |windows|
  {
    if windows != [] {
      BatchIndependence(pieceLength, windows[..|windows| - 1]);
      var before := AllRequests(pieceLength, windows[..|windows| - 1]).value;
      var n := windows[|windows| - 1];
      NextRequestsIsSlice(pieceLength, before.requestIndex, before.endOfPiece, n);
      var end := Advance(pieceLength, before.requestIndex, n);
      assert FirstBlocks(pieceLength, end)
             == FirstBlocks(pieceLength, before.requestIndex) + FirstBlocks(pieceLength, end)[before.requestIndex..];
    }
    var all := AllRequests(pieceLength, windows).value;
    assert |FirstBlocks(pieceLength, all.requestIndex)| == all.requestIndex;
  }
}
