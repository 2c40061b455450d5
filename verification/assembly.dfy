/** Pieces written in any order, some perhaps twice, leave in every file its slice of the torrent. */
module Assembly {
  import opened Common
  import opened Torrents
  import opened Writers

  // ---------------------------------------------------------------- one piece, seen from one file

  /** The two files at a path are the same, or missing both. */
  predicate SameAt(a: Files, b: Files, path: Path) {
    Read(a, path) == Read(b, path) && (path in a <==> path in b)
  }

  lemma OnSegmentElsewhere(files: Files, a: nat, data: seq<byte>, s: FileSegment, path: Path)
    requires s.GetPath() != path
    ensures SameAt(OnSegment(files, a, data, s), files, path)
  {
    hide Overlay, Part, Touched, FileSegment.GetPath;
  }

  /** What a segment's file becomes depends on that file only. */
  lemma OnSegmentLocal(before: Files, files: Files, a: nat, data: seq<byte>, s: FileSegment)
    requires SameAt(before, files, s.GetPath())
    ensures SameAt(OnSegment(before, a, data, s), OnSegment(files, a, data, s), s.GetPath())
  {
    hide Overlay, Part;
  }

  /** Segment j is written by its own part only: paths are distinct. */
  lemma {:induction false} OnFirstAt(files: Files, a: nat, data: seq<byte>, segments: seq<FileSegment>, n: nat, j: nat)
    requires DistinctPaths(segments) && n <= |segments| && j < |segments|
    ensures SameAt(OnFirst(files, a, data, segments, n),
                   if j < n then OnSegment(files, a, data, segments[j]) else files,
                   segments[j].GetPath())
  {
    hide OnSegment, FileSegment.GetPath;
    if n > 0 {
      OnFirstAt(files, a, data, segments, n - 1, j);
      var before := OnFirst(files, a, data, segments, n - 1);
      if j != n - 1 {
        assert segments[j].GetPath() != segments[n - 1].GetPath();
        OnSegmentElsewhere(before, a, data, segments[n - 1], segments[j].GetPath());
      } else {
        OnSegmentLocal(before, files, a, data, segments[j]);
      }
    }
  }

  lemma {:induction false} OnFirstElsewhere(files: Files, a: nat, data: seq<byte>, segments: seq<FileSegment>, n: nat,
                                            path: Path)
    requires n <= |segments| && forall j :: 0 <= j < |segments| ==> segments[j].GetPath() != path
    ensures SameAt(OnFirst(files, a, data, segments, n), files, path)
  {
    hide OnSegment, FileSegment.GetPath;
    if n > 0 {
      OnFirstElsewhere(files, a, data, segments, n - 1, path);
      OnSegmentElsewhere(OnFirst(files, a, data, segments, n - 1), a, data, segments[n - 1], path);
    }
  }

  lemma OverlayTwice(file: seq<byte>, at: nat, data: seq<byte>)
    ensures Overlay(Overlay(file, at, data), at, data) == Overlay(file, at, data)
  {}

  lemma SegmentTwice(files: Files, a: nat, data: seq<byte>, s: FileSegment)
    ensures SameAt(OnSegment(OnSegment(files, a, data, s), a, data, s), OnSegment(files, a, data, s), s.GetPath())
  {
    if Touched(a, data, s) {
      OverlayTwice(Read(files, s.GetPath()), Max(a, s.startIndex) - s.startIndex, Part(a, data, s));
      hide Overlay, Part, Touched;
    }
  }

  lemma WriteTwiceAt(files: Files, a: nat, data: seq<byte>, segments: seq<FileSegment>, path: Path)
    requires DistinctPaths(segments)
    ensures SameAt(PieceWrite(PieceWrite(files, a, data, segments), a, data, segments),
                   PieceWrite(files, a, data, segments), path)
  {
    hide OnSegment, OnFirst, FileSegment.GetPath;
    var once := PieceWrite(files, a, data, segments);
    if j: nat :| j < |segments| && segments[j].GetPath() == path {
      var own := OnSegment(files, a, data, segments[j]);
      OnFirstAt(files, a, data, segments, |segments|, j);
      OnFirstAt(once, a, data, segments, |segments|, j);
      OnSegmentLocal(once, own, a, data, segments[j]);
      SegmentTwice(files, a, data, segments[j]);
    } else {
      OnFirstElsewhere(once, a, data, segments, |segments|, path);
    }
  }

  /** Writing the same piece again changes nothing. */
  lemma WriteTwice(files: Files, a: nat, data: seq<byte>, segments: seq<FileSegment>)
    requires DistinctPaths(segments)
    ensures PieceWrite(PieceWrite(files, a, data, segments), a, data, segments) == PieceWrite(files, a, data, segments)
  {
    var once := PieceWrite(files, a, data, segments);
    var twice := PieceWrite(once, a, data, segments);
    forall path: Path
      ensures SameAt(twice, once, path)
    {
      WriteTwiceAt(files, a, data, segments, path);
    }
    SameEverywhere(twice, once);
  }

  lemma SameEverywhere(a: Files, b: Files)
    requires forall path: Path :: SameAt(a, b, path)
    ensures a == b
  {
    assert forall path: Path ::
        (path in a <==> SameAt(a, b, path) && path in a) && (path in b <==> SameAt(a, b, path) && path in b);
    assert forall path: Path :: path in a ==> a[path] == b[path];
  }

  // ---------------------------------------------------------------- a torrent under assembly

  /** What is to be assembled: the files, the piece length, and the bytes of the torrent. */
  datatype Job = Job(segments: seq<FileSegment>, pieceLength: nat, content: seq<byte>)

  ghost predicate JobOK(job: Job) {
    && Contiguous(job.segments) && DistinctPaths(job.segments)
    && job.pieceLength > 0 && |job.content| == Total(job.segments)
  }

  function NumPieces(job: Job): nat
    requires job.pieceLength > 0
  {
    PieceCount(|job.content|, job.pieceLength)
  }

  function PieceFrom(job: Job, i: nat): nat {
    Min(PieceStart(job.pieceLength, i), |job.content|)
  }

  function PieceTo(job: Job, i: nat): nat {
    Min(PieceStart(job.pieceLength, i) + job.pieceLength, |job.content|)
  }

  function PieceBytes(job: Job, i: nat): seq<byte> {
    job.content[PieceFrom(job, i)..PieceTo(job, i)]
  }

  /** For the pieces there are, these are the offsets and lengths of the piece tiling. */
  lemma PieceBytesPlace(job: Job, i: nat)
    requires job.pieceLength > 0 && i < NumPieces(job)
    ensures PieceFrom(job, i) == PieceStart(job.pieceLength, i)
    ensures |PieceBytes(job, i)| == PieceLengthAt(|job.content|, job.pieceLength, i) > 0
  {
    PieceInside(|job.content|, job.pieceLength, i);
  }

  function WriteOne(files: Files, job: Job, i: nat): Files {
    PieceWrite(files, PieceFrom(job, i), PieceBytes(job, i), job.segments)
  }

  /** The files after the pieces of `order` were written, one after the other. */
  function WriteAll(files: Files, job: Job, order: seq<nat>): Files
    decreases |order|
  {
    if order == [] then files else WriteOne(WriteAll(files, job, order[..|order| - 1]), job, order[|order| - 1])
  }

  predicate ByteInFile(content: seq<byte>, s: FileSegment, f: seq<byte>, x: nat)
    requires s.startIndex <= x < |content|
  {
    x - s.startIndex < |f| && f[x - s.startIndex] == content[x]
  }

  /** Each byte of [a, b) that belongs to segment s is in place in its file f. */
  ghost predicate RangeInFile(content: seq<byte>, s: FileSegment, f: seq<byte>, a: nat, b: nat)
    requires b <= |content|
  {
    forall x: nat :: a <= x < b && s.startIndex <= x < s.endIndex ==> ByteInFile(content, s, f, x)
  }

  ghost predicate PieceInFile(job: Job, s: FileSegment, f: seq<byte>, i: nat) {
    RangeInFile(job.content, s, f, PieceFrom(job, i), PieceTo(job, i))
  }

  /** Beyond the segment's length the file is what it was. */
  ghost predicate TailKept(s: FileSegment, f: seq<byte>, was: seq<byte>) {
    && Max(|f|, s.file.length) == Max(|was|, s.file.length)
    && forall k :: s.file.length <= k < |f| ==> f[k] == was[k]
  }

  function OnFile(f: seq<byte>, a: nat, data: seq<byte>, s: FileSegment): seq<byte> {
    if Touched(a, data, s) then Overlay(f, Max(a, s.startIndex) - s.startIndex, Part(a, data, s)) else f
  }

  ghost predicate WellLaid(content: seq<byte>, s: FileSegment) {
    s.endIndex == s.startIndex + s.file.length <= |content|
  }

  lemma SliceOfSlice(content: seq<byte>, a: nat, b: nat, from: nat, to: nat)
    requires a <= from <= to <= b <= |content|
    ensures content[a..b][from - a..to - a] == content[from..to]
  {
    var inner, outer := content[a..b], content[from..to];
    forall k | 0 <= k < to - from
      ensures inner[from - a..to - a][k] == outer[k]
    {
      assert inner[from - a + k] == content[from + k];
    }
    assert inner[from - a..to - a] == outer;
  }

  lemma PartBytes(content: seq<byte>, s: FileSegment, a: nat, b: nat)
    requires a <= b <= |content| && Touched(a, content[a..b], s)
    ensures Part(a, content[a..b], s) == content[Max(a, s.startIndex)..Min(b, s.endIndex)]
  {
    SliceOfSlice(content, a, b, Max(a, s.startIndex), Min(b, s.endIndex));
  }

  /** Where byte x of the torrent lies in the part, if the write covers it. */
  lemma PartByte(content: seq<byte>, s: FileSegment, a: nat, b: nat, x: nat)
    requires a <= b <= |content| && Touched(a, content[a..b], s) && WellLaid(content, s)
    requires a <= x < b && s.startIndex <= x < s.endIndex
    ensures var at := x - Max(a, s.startIndex);
            0 <= at < |Part(a, content[a..b], s)| && Part(a, content[a..b], s)[at] == content[x]
  {
    PartBytes(content, s, a, b);
  }

  lemma CoveredIsTouched(content: seq<byte>, s: FileSegment, a: nat, b: nat, x: nat)
    requires a <= x < b <= |content| && s.startIndex <= x < s.endIndex
    ensures Touched(a, content[a..b], s)
  {}

  lemma PartEnd(content: seq<byte>, s: FileSegment, a: nat, b: nat)
    requires a <= b <= |content| && Touched(a, content[a..b], s) && WellLaid(content, s)
    ensures Max(a, s.startIndex) + |Part(a, content[a..b], s)| <= b
  {}

  /** One byte of the segment: it is right after the write if the write covers it or it was right before. */
  lemma ByteAfter(content: seq<byte>, s: FileSegment, f: seq<byte>, a: nat, b: nat, x: nat)
    requires a <= b <= |content| && WellLaid(content, s) && s.startIndex <= x < s.endIndex
    requires a <= x < b || ByteInFile(content, s, f, x)
    ensures ByteInFile(content, s, OnFile(f, a, content[a..b], s), x)
  {
    var data := content[a..b];
    if a <= x < b {
      CoveredIsTouched(content, s, a, b, x);
      PartByte(content, s, a, b, x);
    } else if Touched(a, data, s) {
      PartEnd(content, s, a, b);
    }
    hide Part, Touched;
  }

  lemma RangeWritten(content: seq<byte>, s: FileSegment, f: seq<byte>, a: nat, b: nat)
    requires a <= b <= |content| && WellLaid(content, s)
    ensures RangeInFile(content, s, OnFile(f, a, content[a..b], s), a, b)
  {
    hide OnFile, ByteInFile;
    forall x: nat | a <= x < b && s.startIndex <= x < s.endIndex
      ensures ByteInFile(content, s, OnFile(f, a, content[a..b], s), x)
    {
      ByteAfter(content, s, f, a, b, x);
    }
  }

  lemma RangeKept(content: seq<byte>, s: FileSegment, f: seq<byte>, a: nat, b: nat, c: nat, d: nat)
    requires a <= b <= |content| && d <= |content| && WellLaid(content, s) && RangeInFile(content, s, f, c, d)
    ensures RangeInFile(content, s, OnFile(f, a, content[a..b], s), c, d)
  {
    hide OnFile, ByteInFile;
    forall x: nat | c <= x < d && s.startIndex <= x < s.endIndex
      ensures ByteInFile(content, s, OnFile(f, a, content[a..b], s), x)
    {
      ByteAfter(content, s, f, a, b, x);
    }
  }

  lemma TailUntouched(content: seq<byte>, s: FileSegment, f: seq<byte>, was: seq<byte>, a: nat, b: nat)
    requires a <= b <= |content| && WellLaid(content, s) && TailKept(s, f, was)
    ensures TailKept(s, OnFile(f, a, content[a..b], s), was)
  {
    if Touched(a, content[a..b], s) {
      PartBytes(content, s, a, b);
    }
  }

  lemma SegmentLaid(job: Job, j: nat)
    requires JobOK(job) && j < |job.segments|
    ensures WellLaid(job.content, job.segments[j])
  {
    assert LaidAt(job.segments, j);
    SegmentsOrdered(job.segments, j + 1, |job.segments|);
  }

  lemma WriteOneAt(files: Files, job: Job, i: nat, j: nat)
    requires JobOK(job) && j < |job.segments|
    ensures var s := job.segments[j];
            && Read(WriteOne(files, job, i), s.GetPath())
               == OnFile(Read(files, s.GetPath()), PieceFrom(job, i), PieceBytes(job, i), s)
            && (s.GetPath() in WriteOne(files, job, i) <==> s.GetPath() in files || PieceTouches(job, s, i))
  {
    OnFirstAt(files, PieceFrom(job, i), PieceBytes(job, i), job.segments, |job.segments|, j);
  }

  /** After any writes, file j holds every written piece's bytes and its old tail. */
  lemma {:induction false} WrittenPiecesStay(files: Files, job: Job, order: seq<nat>, j: nat)
    requires JobOK(job) && j < |job.segments|
    ensures var s := job.segments[j];
            var f := Read(WriteAll(files, job, order), s.GetPath());
            TailKept(s, f, Read(files, s.GetPath()))
            && forall i :: i in order ==> PieceInFile(job, s, f, i)
    decreases |order|
  {
    if order != [] {
      var before, i, s := order[..|order| - 1], order[|order| - 1], job.segments[j];
      var after := WriteAll(files, job, before);
      WrittenPiecesStay(files, job, before, j);
      SegmentLaid(job, j);
      WriteOneAt(after, job, i, j);
      TailUntouched(job.content, s, Read(after, s.GetPath()), Read(files, s.GetPath()),
                    PieceFrom(job, i), PieceTo(job, i));
      forall m | m in order
        ensures PieceInFile(job, s, Read(WriteAll(files, job, order), s.GetPath()), m)
      {
        if m == i {
          RangeWritten(job.content, s, Read(after, s.GetPath()), PieceFrom(job, i), PieceTo(job, i));
        } else {
          assert m in before;
          RangeKept(job.content, s, Read(after, s.GetPath()),
                    PieceFrom(job, i), PieceTo(job, i), PieceFrom(job, m), PieceTo(job, m));
        }
      }
    }
  }

  predicate PieceTouches(job: Job, s: FileSegment, i: nat) {
    Touched(PieceFrom(job, i), PieceBytes(job, i), s)
  }

  /** A file exists afterwards if it did before or some written piece touches it. */
  lemma {:induction false} FileCreated(files: Files, job: Job, order: seq<nat>, j: nat)
    requires JobOK(job) && j < |job.segments|
    ensures var path := job.segments[j].GetPath();
            path in WriteAll(files, job, order)
            <==> path in files || exists i :: i in order && PieceTouches(job, job.segments[j], i)
    decreases |order|
  {
    if order != [] {
      var before, i := order[..|order| - 1], order[|order| - 1];
      FileCreated(files, job, before, j);
      WriteOneAt(WriteAll(files, job, before), job, i, j);
      assert forall m :: m in order <==> m in before || m == i;
    }
  }

  // ---------------------------------------------------------------- the main results

  ghost predicate Covers(job: Job, order: seq<nat>)
    requires job.pieceLength > 0
  {
    forall i: nat :: i < NumPieces(job) ==> i in order
  }

  function Slice(job: Job, s: FileSegment): seq<byte>
    requires s.startIndex <= s.endIndex <= |job.content|
  {
    job.content[s.startIndex..s.endIndex]
  }

  /** What was in a file beyond the given length. */
  function Tail(file: seq<byte>, length: nat): seq<byte> {
    if |file| > length then file[length..] else []
  }

  /** Whatever the order, every file begins with its slice of the torrent, followed by what an older and
      longer file had there. */
  lemma AnyOrderAssembles(files: Files, job: Job, order: seq<nat>, j: nat)
    requires JobOK(job) && Covers(job, order) && j < |job.segments|
    ensures var s := job.segments[j];
            && s.startIndex <= s.endIndex <= |job.content|
            && Read(WriteAll(files, job, order), s.GetPath())
               == Slice(job, s) + Tail(Read(files, s.GetPath()), s.file.length)
  {
    hide PieceFrom, PieceTo, NumPieces, ByteInFile, WriteAll, Read, FileSegment.GetPath, TailKept;
    var s := job.segments[j];
    var f, was := Read(WriteAll(files, job, order), s.GetPath()), Read(files, s.GetPath());
    WrittenPiecesStay(files, job, order, j);
    SegmentLaid(job, j);
    forall x: nat | s.startIndex <= x < s.endIndex
      ensures ByteInFile(job.content, s, f, x)
    {
      ByteInPiece(job, x);
      assert x / job.pieceLength in order;
      assert PieceInFile(job, s, f, x / job.pieceLength);
    }
    FileIsSliceAndTail(job.content, s, f, was);
  }

  lemma ByteInPiece(job: Job, x: nat)
    requires job.pieceLength > 0 && x < |job.content|
    ensures var i := x / job.pieceLength; i < NumPieces(job) && PieceFrom(job, i) <= x < PieceTo(job, i)
  {
    PieceOfOffset(|job.content|, job.pieceLength, x);
  }

  lemma FileIsSliceAndTail(content: seq<byte>, s: FileSegment, f: seq<byte>, was: seq<byte>)
    requires WellLaid(content, s) && TailKept(s, f, was)
    requires RangeInFile(content, s, f, 0, |content|)
    ensures f == content[s.startIndex..s.endIndex] + Tail(was, s.file.length)
  {
    var n := s.file.length;
    if n > 0 {
      assert ByteInFile(content, s, f, s.endIndex - 1);
    }
    forall k | 0 <= k < n
      ensures f[k] == content[s.startIndex + k]
    {
      assert ByteInFile(content, s, f, s.startIndex + k);
    }
    assert |f| == n + |Tail(was, n)|;
  }

  /** A file has exactly its length if and only if it was not longer before. */
  lemma ExactLengthIff(files: Files, job: Job, order: seq<nat>, j: nat)
    requires JobOK(job) && Covers(job, order) && j < |job.segments|
    ensures var s := job.segments[j];
            s.startIndex <= s.endIndex <= |job.content|
            && (Read(WriteAll(files, job, order), s.GetPath()) == Slice(job, s)
                <==> |Read(files, s.GetPath())| <= s.file.length)
  {
    AnyOrderAssembles(files, job, order, j);
    SegmentLaid(job, j);
    assert |Slice(job, job.segments[j])| == job.segments[j].file.length;
  }

  lemma TouchedStartsInside(job: Job, s: FileSegment, i: nat)
    requires PieceTouches(job, s, i)
    ensures s.startIndex < |job.content|
  {}

  lemma StartTouched(job: Job, s: FileSegment, i: nat)
    requires WellLaid(job.content, s) && PieceFrom(job, i) <= s.startIndex < PieceTo(job, i)
    ensures PieceTouches(job, s, i)
  {}

  /** A file is created if and only if it starts before the end of the torrent: an empty file that the
      torrent ends with is never made. */
  lemma ExistsIffStartsInside(files: Files, job: Job, order: seq<nat>, j: nat)
    requires JobOK(job) && Covers(job, order) && j < |job.segments|
    ensures var s := job.segments[j];
            s.GetPath() in WriteAll(files, job, order) <==> s.GetPath() in files || s.startIndex < |job.content|
  {
    hide PieceFrom, PieceTo, PieceTouches, WriteAll, NumPieces;
    var s := job.segments[j];
    FileCreated(files, job, order, j);
    SegmentLaid(job, j);
    if s.startIndex < |job.content| {
      var i := s.startIndex / job.pieceLength;
      ByteInPiece(job, s.startIndex);
      StartTouched(job, s, i);
      assert i in order;
    } else {
      forall i | i in order
        ensures !PieceTouches(job, s, i)
      {
        if PieceTouches(job, s, i) {
          TouchedStartsInside(job, s, i);
        }
      }
    }
  }

  lemma {:induction false} OtherFilesUntouched(files: Files, job: Job, order: seq<nat>, path: Path)
    requires forall j :: 0 <= j < |job.segments| ==> job.segments[j].GetPath() != path
    ensures var after := WriteAll(files, job, order);
            Read(after, path) == Read(files, path) && (path in after <==> path in files)
    decreases |order|
  {
    if order != [] {
      var before, i := order[..|order| - 1], order[|order| - 1];
      OtherFilesUntouched(files, job, before, path);
      OnFirstElsewhere(WriteAll(files, job, before), PieceFrom(job, i), PieceBytes(job, i), job.segments,
                       |job.segments|, path);
    }
  }
}
