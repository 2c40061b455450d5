/** The downloader's own data: the pieces cut from the torrent, the queue built from them, and sequential
    selection. */
module Downloaders {
  import opened Common
  import opened Torrents
  import opened Pieces
  import opened DownloadQueues
  import opened Heaps
  import Protocol

  class Downloader {
    const torrent: Torrent
    var nPiece: nat
    var pieces: seq<Piece>
    var queue: DownloadQueue
    var bitfieldLen: nat
    var lastSelectedPieceIndex: nat
    var totalSelectedPiece: nat

    constructor (torrent: Torrent)
      requires torrent.pieceLength > 0
      ensures this.torrent == torrent && Built() && fresh(queue) && fresh(pieces)
      ensures lastSelectedPieceIndex == totalSelectedPiece == 0
    {
      this.torrent := torrent;
      nPiece := 0;
      pieces := [];
      queue := new DownloadQueue();
      bitfieldLen := 0;
      lastSelectedPieceIndex := 0;
      totalSelectedPiece := 0;
      new;
      BuildQueue();
    }

    /** The pieces are the tiling of the torrent, and the queue holds each of them once. */
    ghost predicate Built()
      reads this, torrent, pieces, queue, queue.queue
    {
      && torrent.pieceLength > 0
      && nPiece == |pieces| == PieceCount(torrent.length, torrent.pieceLength)
      && (forall i :: 0 <= i < |pieces| ==> IsPiece(pieces[i], i))
      && !queue.locked && queue.Valid() && queue.Indexed() && multiset(queue.queue) == multiset(pieces)
      && bitfieldLen == (nPiece + 7) / 8
    }

    ghost predicate IsPiece(piece: Piece, i: nat)
      reads torrent
    {
      && piece.pieceIndex == i
      && piece.pieceStartIndex == PieceStart(torrent.pieceLength, i)
      && piece.pieceLength == PieceLengthAt(torrent.length, torrent.pieceLength, i)
    }

    /** The i-th piece, the last one cut at the end of the torrent. */
    method CutPiece(i: nat) returns (piece: Piece)
      requires torrent.pieceLength > 0 && i < PieceCount(torrent.length, torrent.pieceLength)
      ensures fresh(piece) && IsPiece(piece, i)
    {
      PieceInside(torrent.length, torrent.pieceLength, i);
      var pieceLength := torrent.pieceLength;
      var startIndex := i * torrent.pieceLength;
      if startIndex + pieceLength > torrent.length {
        pieceLength := torrent.length - startIndex;
      }
      piece := new Piece(i, torrent.pieceLength, pieceLength);
    }

    ghost predicate Queued(q: DownloadQueue, cut: seq<Piece>)
      reads q, q.queue
    {
      && !q.locked && q.Valid() && q.Indexed() && multiset(q.queue) == multiset(cut)
      && forall k :: 0 <= k < |q.queue| ==> q.queue[k] in cut
    }

    /** Cuts the next piece and pushes it. */
    method Enqueue(q: DownloadQueue, ghost cut: seq<Piece>, i: nat) returns (piece: Piece)
      requires torrent.pieceLength > 0 && i < PieceCount(torrent.length, torrent.pieceLength)
      requires Queued(q, cut)
      modifies q`queue, q.Members()`queueIndex
      ensures fresh(piece) && IsPiece(piece, i) && Queued(q, cut + [piece])
    {
      piece := CutPiece(i);
      q.Push(piece);
      forall k | 0 <= k < |q.queue|
        ensures q.queue[k] in cut + [piece]
      {
        assert q.queue[k] in multiset(q.queue);
      }
    }

    /** The loop of buildQueue. */
    method CutAll(q: DownloadQueue, n: nat) returns (cut: seq<Piece>)
      requires torrent.pieceLength > 0 && n == PieceCount(torrent.length, torrent.pieceLength)
      requires q.queue == [] && q.Valid() && q.Indexed() && !q.locked
      modifies q`queue
      ensures |cut| == n && fresh(cut) && Queued(q, cut)
      ensures forall k :: 0 <= k < n ==> IsPiece(cut[k], k)
    {
      hide DownloadQueue.Valid, PieceCount, PieceLengthAt, PieceStart;
      cut := [];
      for i := 0 to n
        invariant |cut| == i && fresh(cut) && Queued(q, cut)
        invariant forall k :: 0 <= k < i ==> IsPiece(cut[k], k)
      {
        var piece := Enqueue(q, cut, i);
        cut := cut + [piece];
      }
    }

    method BuildQueue()
      requires torrent.pieceLength > 0
      modifies this`nPiece, this`pieces, this`queue, this`bitfieldLen
      ensures Built() && fresh(queue) && fresh(pieces)
    {
      hide DownloadQueue.Valid, PieceCount, PieceLengthAt, PieceStart;
      var q := new DownloadQueue();
      var n := PieceCount(torrent.length, torrent.pieceLength);
      var cut := CutAll(q, n);
      InitQueue(q, cut);
      nPiece := n;
      pieces := cut;
      queue := q;
      bitfieldLen := (nPiece + 7) / 8;
    }

    /** What was built, in the torrent's own terms. */
    lemma BuiltFromTorrent()
      requires Built()
      ensures nPiece == |pieces| == (torrent.length + torrent.pieceLength - 1) / torrent.pieceLength
      ensures forall k :: 0 <= k < |pieces| ==>
                && pieces[k].pieceIndex == k && pieces[k].pieceStartIndex == k * torrent.pieceLength
                && pieces[k].pieceLength == Min(torrent.pieceLength, torrent.length - k * torrent.pieceLength)
      ensures bitfieldLen == (|pieces| + 7) / 8
      ensures forall k :: 0 <= k < |queue.queue| ==> queue.queue[k].queueIndex == k && queue.queue[k] in pieces
      ensures forall p: nat, c: nat :: c < |queue.queue| && (c == 2 * p + 1 || c == 2 * p + 2) ==>
                queue.queue[p].availability <= queue.queue[c].availability
      ensures |queue.queue| == |pieces|
    {
      HeapIff(queue.Keys());
      assert |multiset(queue.queue)| == |multiset(pieces)|;
      forall k | 0 <= k < |queue.queue|
        ensures queue.queue[k] in pieces
      {
        assert queue.queue[k] in multiset(queue.queue);
      }
      forall p: nat, c: nat | c < |queue.queue| && (c == 2 * p + 1 || c == 2 * p + 2)
        ensures queue.queue[p].availability <= queue.queue[c].availability
      {
        assert queue.Keys()[p] <= queue.Keys()[c];
      }
    }

    method InitQueue(q: DownloadQueue, ghost cut: seq<Piece>)
      requires Queued(q, cut)
      modifies q`queue, q.Members()`queueIndex
      ensures Queued(q, cut)
    {
      q.Init();
      forall k | 0 <= k < |q.queue|
        ensures q.queue[k] in cut
      {
        assert q.queue[k] in multiset(q.queue);
      }
    }

    /** selectPiece in sequential mode. */
    method SelectPiece() returns (piece: Piece?, completed: bool)
      requires lastSelectedPieceIndex == totalSelectedPiece
      modifies this`lastSelectedPieceIndex, this`totalSelectedPiece
      ensures var pick := Protocol.SelectPiece(old(lastSelectedPieceIndex), old(totalSelectedPiece), |pieces|);
              && completed == pick.completed
              && lastSelectedPieceIndex == pick.last && totalSelectedPiece == pick.total
              && (match pick.job
                  case None => piece == null
                  case Some(i) => i < |pieces| && piece == pieces[i])
      ensures old(totalSelectedPiece) >= |pieces| ==>
                piece == null && completed && lastSelectedPieceIndex == totalSelectedPiece == old(totalSelectedPiece)
      ensures old(totalSelectedPiece) < |pieces| ==>
                && piece == pieces[old(lastSelectedPieceIndex)] && !completed
                && lastSelectedPieceIndex == totalSelectedPiece == old(totalSelectedPiece) + 1
    {
      if totalSelectedPiece >= |pieces| {
        return null, true;
      }
      piece := pieces[lastSelectedPieceIndex];
      lastSelectedPieceIndex := lastSelectedPieceIndex + 1;
      totalSelectedPiece := totalSelectedPiece + 1;
      completed := false;
    }
  }
}
