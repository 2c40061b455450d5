/** A piece, as core/piece.go keeps it: the request cursor, the receive buffer and the sub-piece mask. */
module Pieces {
  import opened Common
  import opened Bits
  import opened Blocks
  import Pipeline
  import PipelineSafety

  const NOT_QUEUED := -1

  class Piece {
    const pieceIndex: nat
    const pieceLength: nat
    const pieceStartIndex: nat
    var downloaded: nat
    var buffer: array<byte>          // a nil slice is an array of length 0
    var subPieceMask: array<bv8>
    var requestIndex: nat
    var endOfPiece: bool
    var nPendingRequest: int
    var availability: int
    var queueIndex: int

    /** NewPiece: one mask octet per block, all off. */
    constructor (pieceIndex: nat, standardPieceLength: nat, pieceLength: nat)
      ensures this.pieceIndex == pieceIndex && this.pieceLength == pieceLength
      ensures pieceStartIndex == pieceIndex * standardPieceLength
      ensures downloaded == 0 && requestIndex == 0 && !endOfPiece && nPendingRequest == 0 && availability == 0
      ensures queueIndex == 0
      ensures fresh(buffer) && buffer.Length == 0 && fresh(subPieceMask)
      ensures subPieceMask.Length == (pieceLength + 16383) / 16384
      ensures forall k: nat :: !FieldHas(subPieceMask[..], k)
    {
      this.pieceIndex := pieceIndex;
      this.pieceLength := pieceLength;
      this.pieceStartIndex := pieceIndex * standardPieceLength;
      this.downloaded := 0;
      this.buffer := new byte[0];
      this.subPieceMask := new bv8[BlockCount(pieceLength)](_ => 0);
      this.requestIndex := 0;
      this.endOfPiece := false;
      this.nPendingRequest := 0;
      this.availability := 0;
      this.queueIndex := 0;
    }

    ghost predicate CursorValid()
      reads this
    {
      CursorOK(pieceLength, requestIndex, endOfPiece)
    }

    /** The next requests, at most nRequest of them; None is a division by zero. */
    method GetNextRequest(nRequest: int) returns (r: Option<seq<Block>>)
      modifies this`requestIndex, this`endOfPiece
      ensures var next := NextRequests(pieceLength, old(requestIndex), old(endOfPiece), nRequest);
              match next
              case None => r.None? && requestIndex == old(requestIndex) && endOfPiece == old(endOfPiece)
              case Some(b) => r == Some(b.requests) && requestIndex == b.requestIndex && endOfPiece == b.endOfPiece
      ensures old(CursorValid()) && pieceLength >= BLOCK_LEN ==>
                var end := Advance(pieceLength, old(requestIndex), nRequest);
                CursorValid() && r == Some(FirstBlocks(pieceLength, end)[old(requestIndex)..])
    {
      hide BlockRequestInfo, Collect, FirstBlocks, BlockCount;
      if old(CursorValid()) && pieceLength >= BLOCK_LEN {
        NextRequestsIsSlice(pieceLength, requestIndex, endOfPiece, nRequest);
      }
      var requests: seq<Block> := [];
      if endOfPiece {
        return Some(requests);
      }
      var i := requestIndex;
      PrefixedEmpty([], Collect(pieceLength, i, nRequest));
      while i < requestIndex + nRequest
        invariant requestIndex == old(requestIndex) && endOfPiece == old(endOfPiece)
        invariant i == requestIndex + |requests|
        invariant i <= requestIndex + Max(nRequest, 0)
        invariant Collect(pieceLength, requestIndex, nRequest)
                  == Prefixed(requests, Collect(pieceLength, i, requestIndex + nRequest - i))
        decreases requestIndex + nRequest - i
      {
        CollectStep(pieceLength, requests, i, requestIndex + nRequest - i);
        var info := BlockRequestInfo(pieceLength, i);
        if info.None? {
          return None;
        }
        requests := requests + [info.value.block];
        if info.value.endOfPiece {
          requestIndex := requestIndex + |requests|;
          endOfPiece := true;
          return Some(requests);
        }
        i := i + 1;
      }
      CollectDone(pieceLength, requests, i, requestIndex + nRequest - i);
      requestIndex := requestIndex + |requests|;
      return Some(requests);
    }

    // -------------------------------------------------------------- receiving

    method Reset()
      modifies this`downloaded, this`buffer, this`requestIndex
      ensures downloaded == 0 && fresh(buffer) && buffer.Length == 0 && requestIndex == 0
    {
      downloaded := 0;
      buffer := new byte[0];
      requestIndex := 0;
    }

    /** copy(buffer[startIndex:startIndex+len(data)], data), then count; nothing once the piece is full.
        False stands for the panic of a slice out of range. */
    method WriteToBuffer(data: seq<byte>, startIndex: nat) returns (inRange: bool)
      modifies this`downloaded, buffer
      ensures inRange <==> old(downloaded) >= pieceLength || startIndex + |data| <= buffer.Length
      ensures old(downloaded) >= pieceLength || !inRange ==>
                downloaded == old(downloaded) && buffer[..] == old(buffer[..])
      ensures inRange && old(downloaded) < pieceLength ==>
                && startIndex + |data| <= buffer.Length
                && buffer[..] == Pipeline.Overwrite(old(buffer[..]), startIndex, data)
                && downloaded == old(downloaded) + |data|
    {
      if downloaded >= pieceLength {
        return true;
      }
      if startIndex + |data| > buffer.Length {
        return false;
      }
      forall k | 0 <= k < |data| {
        buffer[startIndex + k] := data[k];
      }
      downloaded := downloaded + |data|;
      return true;
    }

    /** None is the panic of a mask index out of range. */
    function HasSubPiece(startIndex: nat): (r: Option<bool>)
      reads this`subPieceMask, subPieceMask
      ensures r.Some? <==> startIndex / 16384 / 8 < subPieceMask.Length
      ensures r.Some? ==>
                (r.value <==> var k := startIndex / 16384;
                              subPieceMask[k / 8] & [128, 64, 32, 16, 8, 4, 2, 1][k % 8] != 0)
    {
      var subPieceIndex := startIndex / BLOCK_LEN;
      if subPieceIndex / 8 >= subPieceMask.Length then None
      else
        (BitFromLeft(subPieceMask[subPieceIndex / 8], subPieceIndex % 8);
         Some(IsBitOn(subPieceMask[subPieceIndex / 8], 7 - subPieceIndex % 8)))
    }

    /** What the mask has is bit k of the field, as UpdateBitfield marks it. */
    lemma HasSubPieceIsField(startIndex: nat)
      ensures startIndex / 16384 / 8 < subPieceMask.Length ==>
                HasSubPiece(startIndex) == Some(FieldHas(subPieceMask[..], startIndex / 16384))
    {
      if startIndex / 16384 / 8 < subPieceMask.Length {
        assert subPieceMask[..][startIndex / 16384 / 8] == subPieceMask[startIndex / 16384 / 8];
      }
    }

    /** A block message. False stands for a panic: of the mask's index, or of a slice out of range. */
    method PutPiece(beginIndex: nat, payload: seq<byte>) returns (ok: bool)
      modifies this`downloaded, this`nPendingRequest, buffer
      ensures ok <==> var has := old(HasSubPiece(beginIndex));
                      has.Some?
                      && (has.value || old(downloaded) >= pieceLength || beginIndex + |payload| <= buffer.Length)
      ensures ok && (old(HasSubPiece(beginIndex)).value || old(downloaded) >= pieceLength) ==>
                nPendingRequest == old(nPendingRequest) && downloaded == old(downloaded)
                && buffer[..] == old(buffer[..])
      ensures ok && !old(HasSubPiece(beginIndex)).value && old(downloaded) < pieceLength ==>
                && nPendingRequest == old(nPendingRequest) - 1
                && downloaded == old(downloaded) + |payload|
                && buffer[..] == Pipeline.Overwrite(old(buffer[..]), beginIndex, payload)
      ensures ok ==> Receipt(nPendingRequest, downloaded, buffer[..])
                     == AfterPut(pieceLength, old(HasSubPiece(beginIndex)).value,
                            old(Receipt(nPendingRequest, downloaded, buffer[..])), beginIndex, payload)
    {
      var has := HasSubPiece(beginIndex);
      if has.None? {
        return false;
      }
      if !has.value && downloaded < pieceLength {
        nPendingRequest := nPendingRequest - 1;
        ok := WriteToBuffer(payload, beginIndex);
      } else {
        ok := true;
      }
    }

    /** Marks the block at an offset; the mask of a piece has room for each of its blocks. */
    method UpdateBitfield(startIndex: nat)
      requires startIndex / 16384 / 8 < subPieceMask.Length
      modifies subPieceMask
      ensures Marked(old(subPieceMask[..]), subPieceMask[..], startIndex / 16384)
      ensures var k := startIndex / 16384;
              subPieceMask[..] == old(subPieceMask[..])[k / 8 := old(subPieceMask[k / 8])
                                                                 | [128, 64, 32, 16, 8, 4, 2, 1][k % 8]]
    {
      var subPieceIndex := startIndex / BLOCK_LEN;
      var byteIndex := subPieceIndex / 8;
      var bitIndex := 7 - subPieceIndex % 8;
      ghost var before := subPieceMask[..];
      var octet := BitMask(subPieceMask[byteIndex], 1, [bitIndex]);
      MarkBit(before, subPieceIndex, octet);
      OneBitOn(before[byteIndex], octet, subPieceIndex % 8);
      subPieceMask[byteIndex] := octet;
      assert subPieceMask[..] == before[byteIndex := octet];
    }
  }

  // ---------------------------------------------------------------- putPiece and the pipeline

  /** The fields that a block message changes. */
  datatype Receipt = Receipt(nPending: int, downloaded: nat, buffer: seq<byte>)

  function AfterPut(pieceLength: nat, has: bool, r: Receipt, begin: nat, payload: seq<byte>): Receipt
    requires has || r.downloaded >= pieceLength || begin + |payload| <= |r.buffer|
  {
    if has || r.downloaded >= pieceLength then r
    else Receipt(r.nPending - 1, r.downloaded + |payload|, Pipeline.Overwrite(r.buffer, begin, payload))
  }

  function ReceiptOf(s: Pipeline.State): Receipt {
    Receipt(s.nPending, s.downloaded, s.buffer)
  }

  /** A reply that the router can take fits the piece and is wanted. */
  lemma ReplyFits(source: seq<byte>, s: Pipeline.State, b: Block)
    requires PipelineSafety.Inv(source, s) && Pipeline.Enabled(source, s, Pipeline.Receive(b))
    ensures Pipeline.InPiece(source, b) && |s.buffer| == |source| && s.downloaded < |source|
  {
    PipelineSafety.ReplyIsWanted(source, s, b);
    PipelineSafety.StepKeepsInv(source, s, Pipeline.Receive(b));
    var received := Pipeline.Apply(source, s, Pipeline.Receive(b));
    assert received.router == Pipeline.Uncounted(b) && received.requestIndex == s.requestIndex;
    hide Pipeline.Apply, PipelineSafety.LedgerOK, PipelineSafety.WindowOK;
    var k := PipelineSafety.RouterBlock(source, received);
  }

  /** What putPiece does to an unmarked block is what the pipeline's Receive, Copy and Add do one after the
      other: each is possible after the one before, and together they move the block to the answered ones. */
  lemma PutIsReceiveCopyAdd(source: seq<byte>, s: Pipeline.State, b: Block)
    requires PipelineSafety.Inv(source, s) && Pipeline.Enabled(source, s, Pipeline.Receive(b))
    ensures Pipeline.InPiece(source, b) && |s.buffer| == |source|
    ensures var received := Pipeline.Apply(source, s, Pipeline.Receive(b));
            && Pipeline.Enabled(source, received, Pipeline.Copy)
            && var copied := Pipeline.Apply(source, received, Pipeline.Copy);
               && Pipeline.Enabled(source, copied, Pipeline.Add)
               && var added := Pipeline.Apply(source, copied, Pipeline.Add);
                  && ReceiptOf(added) == AfterPut(|source|, false, ReceiptOf(s), b.begin, Pipeline.Payload(source, b))
                  && added == s.(nPending := added.nPending, downloaded := added.downloaded, buffer := added.buffer,
                                 replies := s.replies - multiset{b}, answered := s.answered + [b])
  {
    ReplyFits(source, s, b);
    hide PipelineSafety.Inv, Pipeline.Overwrite;
  }

  /** After any marks, in any order, the blocks the mask has are the blocks of the offsets marked. */
  lemma {:induction false} MaskIsSetOfBlocks(masks: seq<seq<bv8>>, offsets: seq<nat>, k: nat)
    requires |masks| == |offsets| + 1 && forall j: nat :: !FieldHas(masks[0], j)
    requires forall m :: 0 <= m < |offsets| ==>
               offsets[m] / 16384 / 8 < |masks[m]| && Marked(masks[m], masks[m + 1], offsets[m] / 16384)
    ensures FieldHas(masks[|offsets|], k) <==> exists m :: 0 <= m < |offsets| && offsets[m] / 16384 == k
  {
    if offsets != [] {
      var n := |offsets| - 1;
      MaskIsSetOfBlocks(masks[..n + 1], offsets[..n], k);
      assert Marked(masks[n], masks[n + 1], offsets[n] / 16384);
      assert masks[..n + 1][n] == masks[n];
    }
  }

  lemma OffsetsFitMask(pieceLength: nat, startIndex: nat)
    requires startIndex < pieceLength
    ensures startIndex / 16384 / 8 < (pieceLength + 16383) / 16384
  {
    BlockOfOffset(pieceLength, startIndex);
  }
}
