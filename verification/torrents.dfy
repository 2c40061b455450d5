/** The torrent's byte range: files laid end to end, and the same range cut into pieces. */
module Torrents {
  import opened Common

  datatype Mode = Single | Multiple

  /** A path is kept as its components; joining them is the operating system's business. */
  type Path = seq<string>

  datatype File = File(length: nat, path: Path)

  datatype SingleInfo = SingleInfo(pieceLength: nat, pieces: string, length: nat, name: string)

  datatype MultipleInfo = MultipleInfo(pieceLength: nat, pieces: string, name: string, files: seq<File>)

  datatype FileSegment = FileSegment(file: File, startIndex: nat, endIndex: nat, parentName: string, mode: Mode) {
    function GetPath(): Path {
      if mode.Multiple? then [parentName] + file.path else file.path
    }
  }

  // ---------------------------------------------------------------- file tiling

  function SumLengths(files: seq<File>): nat {
    if files == [] then 0 else SumLengths(files[..|files| - 1]) + files[|files| - 1].length
  }

  lemma SumLengthsNext(files: seq<File>, k: nat)
    requires k < |files|
    ensures SumLengths(files[..k + 1]) == SumLengths(files[..k]) + files[k].length
  {
    assert files[..k + 1][..k] == files[..k];
  }

  /** Where the first n segments end. */
  function EndOf(segments: seq<FileSegment>, n: nat): nat
    requires n <= |segments|
  {
    if n == 0 then 0 else segments[n - 1].endIndex
  }

  ghost predicate LaidAt(segments: seq<FileSegment>, i: nat)
    requires i < |segments|
  {
    segments[i].startIndex == EndOf(segments, i)
    && segments[i].endIndex == segments[i].startIndex + segments[i].file.length
  }

  /** Each segment starts where the one before it ends, the first at 0. */
  ghost predicate Contiguous(segments: seq<FileSegment>) {
    forall i: nat :: i < |segments| ==> LaidAt(segments, i)
  }

  function Total(segments: seq<FileSegment>): nat {
    EndOf(segments, |segments|)
  }

  ghost predicate DistinctPaths(segments: seq<FileSegment>) {
    forall i, j :: 0 <= i < j < |segments| ==> segments[i].GetPath() != segments[j].GetPath()
  }

  lemma {:induction false} SegmentsOrdered(segments: seq<FileSegment>, i: nat, j: nat)
    requires Contiguous(segments) && i <= j <= |segments|
    ensures EndOf(segments, i) <= EndOf(segments, j)
    decreases j
  {
    if i < j {
      SegmentsOrdered(segments, i, j - 1);
      assert LaidAt(segments, j - 1);
    }
  }

  lemma ContiguousAppend(segments: seq<FileSegment>, s: FileSegment)
    requires Contiguous(segments) && s.startIndex == Total(segments) && s.endIndex == s.startIndex + s.file.length
    ensures Contiguous(segments + [s]) && Total(segments + [s]) == s.endIndex
  {
    var longer := segments + [s];
    forall i: nat | i < |longer|
      ensures LaidAt(longer, i)
    {
      if i < |segments| {
        assert LaidAt(segments, i);
        assert EndOf(longer, i) == EndOf(segments, i);
      }
    }
  }

  /** The files end to end in their order, each to be found below the folder. */
  ghost predicate LaidOut(segments: seq<FileSegment>, files: seq<File>, folder: Path) {
    && |segments| == |files| && Contiguous(segments)
    && forall i :: 0 <= i < |files| ==> segments[i].file == files[i] && segments[i].GetPath() == folder + files[i].path
  }

  /** File j starts after the files before it. */
  lemma {:induction false} SegmentStart(segments: seq<FileSegment>, files: seq<File>, folder: Path, j: nat)
    requires LaidOut(segments, files, folder) && j <= |files|
    ensures EndOf(segments, j) == SumLengths(files[..j])
    ensures j < |files| ==> segments[j].startIndex == SumLengths(files[..j])
                            && segments[j].endIndex == SumLengths(files[..j]) + files[j].length
  {
    if j > 0 {
      SegmentStart(segments, files, folder, j - 1);
      SumLengthsNext(files, j - 1);
    }
    if j < |files| {
      assert LaidAt(segments, j);
    }
  }

  /** Segments go to different paths exactly if the torrent lists no path twice. */
  lemma DistinctIffListedOnce(segments: seq<FileSegment>, files: seq<File>, folder: Path)
    requires LaidOut(segments, files, folder)
    ensures DistinctPaths(segments) <==> forall i, j :: 0 <= i < j < |files| ==> files[i].path != files[j].path
  {
    forall i, j | 0 <= i < j < |files|
      ensures segments[i].GetPath() == segments[j].GetPath() <==> files[i].path == files[j].path
    {
      assert (folder + files[i].path)[|folder|..] == files[i].path;
      assert (folder + files[j].path)[|folder|..] == files[j].path;
    }
  }

  class Torrent {
    const fileMode: Mode
    const singleInfo: SingleInfo
    const multiple: MultipleInfo
    var fileSegments: seq<FileSegment>
    var pieceLength: nat
    var length: nat
    var pieces: string

    constructor (fileMode: Mode, singleInfo: SingleInfo, multiple: MultipleInfo)
      ensures this.fileMode == fileMode && this.singleInfo == singleInfo && this.multiple == multiple
      ensures fileSegments == [] && pieceLength == 0 && length == 0 && pieces == ""
    {
      this.fileMode := fileMode;
      this.singleInfo := singleInfo;
      this.multiple := multiple;
      fileSegments := [];
      pieceLength := 0;
      length := 0;
      pieces := "";
    }

    /** Piece length and hashes are taken over inside the loop: a multi-file torrent without files keeps
        what it had. */
    method BuildFileSegment()
      modifies this
      ensures fileMode.Multiple? ==> LaidOut(fileSegments, multiple.files, [multiple.name])
      ensures fileMode.Single? ==> LaidOut(fileSegments, [File(singleInfo.length, [singleInfo.name])], [])
      ensures fileMode.Multiple? ==>
                && |fileSegments| == |multiple.files|
                && forall i :: 0 <= i < |fileSegments| ==>
                     fileSegments[i].GetPath() == [multiple.name] + multiple.files[i].path
      ensures fileMode.Single? ==> |fileSegments| == 1 && fileSegments[0].GetPath() == [singleInfo.name]
      ensures length == Total(fileSegments)
      ensures length == if fileMode.Multiple? then SumLengths(multiple.files) else singleInfo.length
      ensures fileMode.Single? ==> pieceLength == singleInfo.pieceLength && pieces == singleInfo.pieces
      ensures fileMode.Multiple? && multiple.files != [] ==>
                pieceLength == multiple.pieceLength && pieces == multiple.pieces
      ensures fileMode.Multiple? && multiple.files == [] ==> pieceLength == old(pieceLength) && pieces == old(pieces)
    {
      assert Contiguous([]) && SumLengths(multiple.files[..0]) == 0;
      hide Contiguous;
      var segments: seq<FileSegment> := [];
      var fileLength := 0;
      if fileMode.Multiple? {
        var startIndex, endIndex := 0, 0;
        for fileIndex := 0 to |multiple.files|
          invariant |segments| == fileIndex && Contiguous(segments)
          invariant forall i :: 0 <= i < fileIndex ==>
                      segments[i].file == multiple.files[i]
                      && segments[i].GetPath() == [multiple.name] + multiple.files[i].path
          invariant fileLength == SumLengths(multiple.files[..fileIndex]) == Total(segments)
          invariant fileIndex == 0 ==> startIndex == 0 && pieceLength == old(pieceLength) && pieces == old(pieces)
          invariant fileIndex > 0 ==> pieceLength == multiple.pieceLength && pieces == multiple.pieces
        {
          var file := multiple.files[fileIndex];
          if fileIndex == 0 {
            endIndex := file.length;
          } else {
            startIndex := segments[fileIndex - 1].endIndex;
            endIndex := startIndex + file.length;
          }
          ContiguousAppend(segments, FileSegment(file, startIndex, endIndex, multiple.name, fileMode));
          segments := segments + [FileSegment(file, startIndex, endIndex, multiple.name, fileMode)];
          fileLength := fileLength + file.length;
          pieceLength := multiple.pieceLength;
          pieces := multiple.pieces;
          SumLengthsNext(multiple.files, fileIndex);
        }
        assert multiple.files[..|multiple.files|] == multiple.files;
      } else {
        ContiguousAppend([], FileSegment(File(singleInfo.length, [singleInfo.name]), 0, singleInfo.length,
                                         singleInfo.name, fileMode));
        segments := segments
          + [FileSegment(File(singleInfo.length, [singleInfo.name]), 0, singleInfo.length, singleInfo.name, fileMode)];
        fileLength := singleInfo.length;
        pieceLength := singleInfo.pieceLength;
        pieces := singleInfo.pieces;
      }
      fileSegments := segments;
      length := fileLength;
    }
  }

  // ---------------------------------------------------------------- piece tiling

  /** The ceiling of length / pieceLength. */
  function PieceCount(length: nat, pieceLength: nat): nat
    requires pieceLength > 0
  {
    (length + pieceLength - 1) / pieceLength
  }

  function PieceStart(pieceLength: nat, i: nat): nat {
    i * pieceLength
  }

  /** The last piece is cut at the end of the torrent. */
  function PieceLengthAt(length: nat, pieceLength: nat, i: nat): int {
    if PieceStart(pieceLength, i) + pieceLength > length then length - PieceStart(pieceLength, i) else pieceLength
  }

  lemma PieceInside(length: nat, pieceLength: nat, i: nat)
    requires pieceLength > 0 && i < PieceCount(length, pieceLength)
    ensures PieceStart(pieceLength, i) < length
    ensures 0 < PieceLengthAt(length, pieceLength, i) <= pieceLength
    ensures PieceStart(pieceLength, i) + PieceLengthAt(length, pieceLength, i) <= length
  {
    var n := PieceCount(length, pieceLength);
    assert n * pieceLength <= length + pieceLength - 1;
    assert i * pieceLength <= (n - 1) * pieceLength;
    assert (n - 1) * pieceLength == n * pieceLength - pieceLength;
  }

  lemma Quotient(x: nat, p: nat)
    requires p > 0
    ensures x / p * p <= x < x / p * p + p
  {}

  lemma TimesMonotone(a: nat, b: nat, p: nat)
    requires a <= b
    ensures a * p <= b * p
  {}

  /** The pieces cover the torrent: offset x lies in piece x / pieceLength, and in no other. */
  lemma PieceOfOffset(length: nat, pieceLength: nat, x: nat)
    requires pieceLength > 0 && x < length
    ensures var i := x / pieceLength;
            i < PieceCount(length, pieceLength)
            && PieceStart(pieceLength, i) <= x < PieceStart(pieceLength, i) + PieceLengthAt(length, pieceLength, i)
  {
    var i, n := x / pieceLength, PieceCount(length, pieceLength);
    Quotient(x, pieceLength);
    Quotient(length + pieceLength - 1, pieceLength);
    if i >= n {
      TimesMonotone(n, i, pieceLength);
    }
  }

  lemma PiecesApart(length: nat, pieceLength: nat, i: nat, j: nat)
    requires pieceLength > 0 && i < j < PieceCount(length, pieceLength)
    ensures PieceStart(pieceLength, i) + PieceLengthAt(length, pieceLength, i) <= PieceStart(pieceLength, j)
  {
    assert (i + 1) * pieceLength <= j * pieceLength;
    assert (i + 1) * pieceLength == i * pieceLength + pieceLength;
  }
}
