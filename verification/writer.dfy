/** Writing one piece to the files it overlaps. */
module Writers {
  import opened Common
  import opened Pieces
  import opened Torrents

  type Files = map<Path, seq<byte>>

  // ---------------------------------------------------------------- one write

  /** A write at an offset: a gap is filled with zeros, an empty write leaves the file alone. */
  function Overlay(file: seq<byte>, at: nat, data: seq<byte>): (r: seq<byte>)
    ensures |r| == if data == [] then |file| else Max(|file|, at + |data|)
    ensures forall x :: 0 <= x < |r| ==>
              r[x] == if at <= x < at + |data| then data[x - at] else if x < |file| then file[x] else 0
  {
    if data == [] then file
    else
      seq(Max(|file|, at + |data|),
          x requires 0 <= x => if at <= x < at + |data| then data[x - at] else if x < |file| then file[x] else 0)
  }

  function Read(files: Files, path: Path): seq<byte> {
    if path in files then files[path] else []
  }

  /** Opening creates the file; every write succeeds. */
  function Put(files: Files, path: Path, data: seq<byte>, at: nat): Files {
    files[path := Overlay(Read(files, path), at, data)]
  }

  class Disk {
    var files: Files

    constructor (files: Files)
      ensures this.files == files
    {
      this.files := files;
    }

    method WriteToFile(data: seq<byte>, path: Path, startIndex: nat) returns (nByte: nat)
      modifies this
      ensures files == Put(old(files), path, data, startIndex) && nByte == |data|
    {
      files := Put(files, path, data, startIndex);
      nByte := |data|;
    }
  }

  // ---------------------------------------------------------------- the bytes of a piece in a file

  /** The segment meets the piece [a, a + |data|), or the piece starts exactly at its end. */
  predicate Touched(a: nat, data: seq<byte>, s: FileSegment) {
    data != [] && s.startIndex <= s.endIndex && a <= s.endIndex && s.startIndex < a + |data|
  }

  /** The part of the piece that lies in the segment. */
  function Part(a: nat, data: seq<byte>, s: FileSegment): seq<byte>
    requires Touched(a, data, s)
  {
    data[Max(a, s.startIndex) - a..Min(a + |data|, s.endIndex) - a]
  }

  function OnSegment(files: Files, a: nat, data: seq<byte>, s: FileSegment): Files
  {
    if Touched(a, data, s) then
      Put(files, s.GetPath(), Part(a, data, s), Max(a, s.startIndex) - s.startIndex)
    else files
  }

  function OnFirst(files: Files, a: nat, data: seq<byte>, segments: seq<FileSegment>, n: nat): Files
    requires n <= |segments|
  {
    if n == 0 then files else OnSegment(OnFirst(files, a, data, segments, n - 1), a, data, segments[n - 1])
  }

  /** What one piece does to the files: in each segment, the intersection of the two intervals. */
  function PieceWrite(files: Files, a: nat, data: seq<byte>, segments: seq<FileSegment>): Files
  {
    OnFirst(files, a, data, segments, |segments|)
  }

  lemma OnFirstNext(files: Files, a: nat, data: seq<byte>, segments: seq<FileSegment>, n: nat)
    requires n < |segments|
    ensures OnFirst(files, a, data, segments, n + 1)
            == OnSegment(OnFirst(files, a, data, segments, n), a, data, segments[n])
  {}

  lemma {:induction false} BeyondUntouched(files: Files, a: nat, data: seq<byte>, segments: seq<FileSegment>,
                                           n: nat, m: nat)
    requires Contiguous(segments) && n <= m <= |segments|
    requires n < |segments| ==> segments[n].startIndex >= a + |data| || data == []
    ensures OnFirst(files, a, data, segments, m) == OnFirst(files, a, data, segments, n)
  {
    if n < m {
      BeyondUntouched(files, a, data, segments, n, m - 1);
      SegmentsOrdered(segments, n, m - 1);
      assert LaidAt(segments, n) && LaidAt(segments, m - 1);
    }
  }

  // ---------------------------------------------------------------- writePiece

  /** The three cases of writePiece for one segment, on the running indices: where to write in the file, and
      which part of the buffer. With bytes remaining, a segment that no case covers lies before the piece. */
  method Locate(absStartIndex: nat, absEndIndex: nat, segment: FileSegment, start: nat, end: nat)
    returns (covered: bool, writeAt: nat, relativeStartIndex: nat, relativeEndIndex: nat)
    requires absStartIndex < absEndIndex && segment.startIndex < absEndIndex && end == absEndIndex - absStartIndex
    requires segment.endIndex == segment.startIndex + segment.file.length
    requires segment.startIndex <= absStartIndex ==> start == 0
    ensures covered <==> absStartIndex <= segment.endIndex
    ensures covered ==>
              && writeAt == Max(absStartIndex, segment.startIndex) - segment.startIndex
              && relativeStartIndex == Max(absStartIndex, segment.startIndex) - absStartIndex
              && relativeEndIndex == Min(absEndIndex, segment.endIndex) - absStartIndex
  {
    covered, writeAt, relativeStartIndex, relativeEndIndex := true, 0, start, end;
    var caseA := absStartIndex < segment.startIndex && absEndIndex > segment.endIndex;
    var caseB := absStartIndex >= segment.startIndex && absStartIndex <= segment.endIndex;
    var caseC := absStartIndex <= segment.startIndex && absEndIndex <= segment.endIndex;
    if caseA {
      writeAt := 0;
      relativeStartIndex := segment.startIndex - absStartIndex;
      relativeEndIndex := relativeStartIndex + segment.file.length;
    } else if caseB {
      writeAt := absStartIndex - segment.startIndex;
      if absEndIndex > segment.endIndex {
        relativeEndIndex := (absEndIndex - absStartIndex) - (absEndIndex - segment.endIndex);
      }
    } else if caseC {
      writeAt := 0;
      relativeStartIndex := segment.startIndex - absStartIndex;
      relativeEndIndex := absEndIndex - absStartIndex;
    } else {
      covered := false;
    }
  }

  lemma PartIsSlice(a: nat, data: seq<byte>, s: FileSegment, from: nat, to: nat)
    requires data != [] && s.startIndex <= s.endIndex && a <= s.endIndex && s.startIndex < a + |data|
    requires from == Max(a, s.startIndex) - a && to == Min(a + |data|, s.endIndex) - a
    ensures Touched(a, data, s) && from <= to <= |data| && Part(a, data, s) == data[from..to]
  {}

  /** One round of writePiece's loop: the segment's part of the piece goes to its file. */
  method WriteRound(piece: Piece, segment: FileSegment, disk: Disk, start: nat, remaining: int)
    returns (next: nat, left: int)
    requires segment.endIndex == segment.startIndex + segment.file.length
    requires piece.buffer.Length == piece.pieceLength > 0
    requires segment.startIndex < piece.pieceStartIndex + piece.pieceLength
    requires segment.startIndex <= piece.pieceStartIndex ==> start == 0
    modifies disk
    ensures disk.files == OnSegment(old(disk.files), piece.pieceStartIndex, piece.buffer[..], segment)
    ensures segment.endIndex < piece.pieceStartIndex ==> left == remaining && next == start
    ensures segment.endIndex >= piece.pieceStartIndex ==>
              var absEndIndex := piece.pieceStartIndex + piece.pieceLength;
              && next == Min(absEndIndex, segment.endIndex) - piece.pieceStartIndex
              && left == remaining
                         - (Min(absEndIndex, segment.endIndex) - Max(piece.pieceStartIndex, segment.startIndex))
  {
    next, left := start, remaining;
    ghost var data := piece.buffer[..];
    var covered, writeAt, from, to :=
      Locate(piece.pieceStartIndex, piece.pieceStartIndex + piece.pieceLength, segment, start, piece.pieceLength);
    hide Put, Part;
    if covered {
      PartIsSlice(piece.pieceStartIndex, data, segment, from, to);
      assert piece.buffer[from..to] == data[from..to];
      var nByte := disk.WriteToFile(piece.buffer[from..to], segment.GetPath(), writeAt);
      next, left := to, remaining - nByte;
    }
  }

  /** The bytes of the piece [a, e) that lie at or after `at`. */
  function Remaining(a: nat, e: nat, at: nat): nat {
    Max(0, e - Max(a, at))
  }

  /** What a round takes off is the segment's share; the next segment starts where this one ends. */
  lemma RemainingNext(a: nat, e: nat, s: FileSegment)
    requires s.startIndex <= s.endIndex && a < e && s.startIndex < e
    ensures Remaining(a, e, s.endIndex)
            == Remaining(a, e, s.startIndex)
               - if s.endIndex < a then 0 else Min(e, s.endIndex) - Max(a, s.startIndex)
  {}

  lemma NothingRemains(a: nat, e: nat, at: nat)
    requires a <= e
    ensures Remaining(a, e, at) == 0 <==> at >= e || a == e
    ensures Remaining(a, e, 0) == e - a
  {}

  lemma RemainingFrom(a: nat, e: nat, at: nat)
    requires a <= e
    ensures Remaining(a, e, at) == Max(0, e - a - Max(0, at - a))
  {}

  /** The loop of writePiece: the bytes that remain are those beyond the last segment. */
  method WritePiece(piece: Piece, segments: seq<FileSegment>, disk: Disk) returns (remaining: int)
    requires Contiguous(segments) && piece.buffer.Length == piece.pieceLength
    modifies disk
    ensures disk.files == PieceWrite(old(disk.files), piece.pieceStartIndex, piece.buffer[..], segments)
    ensures remaining == Max(0, piece.pieceLength - Max(0, Total(segments) - piece.pieceStartIndex))
    ensures remaining == 0 <==> piece.pieceLength == 0 || piece.pieceStartIndex + piece.pieceLength <= Total(segments)
  {
    var absStartIndex := piece.pieceStartIndex;
    var absEndIndex := absStartIndex + piece.pieceLength;
    var relativeStartIndex := 0;
    remaining := piece.pieceLength;
    ghost var data := piece.buffer[..];
    ghost var before := disk.files;
    assert OnFirst(before, absStartIndex, data, segments, 0) == before;
    hide OnSegment, OnFirst, Remaining;
    NothingRemains(absStartIndex, absEndIndex, 0);
    var i := 0;
    while i < |segments|
      invariant i <= |segments| && piece.buffer[..] == data
      invariant EndOf(segments, i) <= absStartIndex ==> relativeStartIndex == 0
      invariant remaining == Remaining(absStartIndex, absEndIndex, EndOf(segments, i))
      invariant disk.files == OnFirst(before, absStartIndex, data, segments, i)
    {
      if remaining == 0 {
        break;
      }
      assert LaidAt(segments, i);
      NothingRemains(absStartIndex, absEndIndex, EndOf(segments, i));
      RemainingNext(absStartIndex, absEndIndex, segments[i]);
      OnFirstNext(before, absStartIndex, data, segments, i);
      relativeStartIndex, remaining := WriteRound(piece, segments[i], disk, relativeStartIndex, remaining);
      i := i + 1;
    }
    NothingRemains(absStartIndex, absEndIndex, EndOf(segments, i));
    if i < |segments| {
      assert LaidAt(segments, i);
    }
    BeyondUntouched(before, absStartIndex, data, segments, i, |segments|);
    SegmentsOrdered(segments, i, |segments|);
    NothingRemains(absStartIndex, absEndIndex, Total(segments));
    RemainingFrom(absStartIndex, absEndIndex, Total(segments));
  }
}
