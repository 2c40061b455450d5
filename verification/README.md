# The download engine of DawnTorrent, in Dafny

DawnTorrent cuts a torrent into pieces, lets ten workers fetch them from peers in blocks of 16384 bytes, and
writes each finished piece to the files it overlaps. This project models that engine, the bencode parser and
printer it reads torrents with, and the wire format it speaks, and proves what the engine is for: **when an
uncancelled download reports completion, every file holds its part of the torrent; and it reports completion,
without deadlock and after a bounded amount of work, for exactly the torrents whose pieces are all offered and whose
last piece is not shorter than one block.**

`dafny verify dfyconfig.toml` checks everything.

## How the source maps to modules

| source | modules |
|---|---|
| `core/torrent/Torrent.go`, `core/downloader.go` (building) | `Torrents`, `Downloaders` |
| `core/piece.go` | `Blocks` (the arithmetic of requests), `Pieces` (the struct), `Bits` |
| `core/piece.go` as concurrent code | `Pipeline` (requesting loop, peer and message router, step by step), `PipelineSafety`, `PipelineProgress` |
| `core/writer.go` | `Writers` (the loop, and what it refines), `Assembly` (any order of pieces) |
| `core/downloader.go`, `core/peer_manager.go` (goroutines) | `Protocol` (state and steps), `ProtocolLedger`, `ProtocolInvariant`, `ProtocolSafety`, `ProtocolTheorems`, `ProtocolHistory` (state and next steps told from the steps before), `ProtocolCompletion` and `ProtocolTraces` (what a report of completion is worth after cancelling and starting again), `ProtocolProgress`, `ProtocolWork` |
| all of the above together | `EndToEnd`, `EngineProgress` |
| `core/peer.go` | `Peers` |
| `core/downloadQueue.go` | `Heaps`, `DownloadQueues` |
| `parser/bencode_parser.go`, `core/torrent.go` | `Decimals`, `Bencode`, `BencodeRoundTrip`, `BencodeTheorems`, `BencodeParser`, `BencodeTexts` (any text, character by character) |
| `core/msg_parser.go`, `core/torrent_message.go`, framing in `core/peer_manager.go` | `Wire`, `WireOctets` (octet by octet) |

Code that changes fields or runs loops is written as classes and methods with loops, each proved against a function;
code shared between goroutines is a transition system whose steps are single actions of one goroutine (`Enabled`,
`Apply`), and theorems about it speak of every sequence of enabled steps (`Admissible`, `Execute`).

In the protocol a piece, a claim on a job, a membership in the wait group, a slot of a peer and a write under way are
tokens; `ProtocolLedger.RunsBear` counts where they are, and every step is shown to move them without making or
losing one. A restart adds a run to the state and does not stop the runs before it; theorems hold for any number of
runs unless they say "lone".

## What the proofs show about the code

- **Short pieces.** For a piece shorter than 16384 bytes the first request divides by zero (`core/piece.go:45`).
  Such a download can never return, so a torrent whose last piece is short is never completed; all others can be
  (`PipelineProgress.ReturnsIffFits`, `EngineProgress.CompletesIff`).
- **Completion under cancellation.** The waiter reports what the selection said when it was spawned, and a worker
  joins the wait group only when it is scheduled. So after a cancellation completion can be reported with a piece
  still in the job channel (`ProtocolTraces.CancelledRunPostsCompletion`), or with a piece in the hands of a worker
  that came after the wait had passed (`ProtocolTraces.LateWorkerTakesThePiece`). A report, from whichever run, is
  right exactly if no channel, dispatcher or worker of any run has a piece left
  (`ProtocolCompletion.PostedIsRightIff`).
- **Starting again.** Selection goes on where it stopped, so a piece left in the channel of a run without workers is
  never fetched by a later run (`ProtocolCompletion.AbandonedIsLost`, `EndToEnd.AbandonedIsNeverWritten`), and a
  later run that is not cancelled itself reports completion without it (`ProtocolTraces.ResumedRunPostsCompletion`).
- **Files.** An empty file at the end of a torrent is never created, and a file that was longer keeps its tail
  (`Assembly.ExistsIffStartsInside`, `Assembly.ExactLengthIff`).
- **Bencode.** Of what is printed, signs of numbers are lost, lists of several strings lose strings, empty containers
  stop the parser and lists of several kinds stop the printer; everything else survives
  (`BencodeTheorems.ParseUndoesPrintIff`). In any text, the second of two numbers in a list is lost, and so is a number
  before a container (`BencodeTexts.SecondNumberIsLost`, `BencodeTexts.NumberBeforeContainerIsLost`). Of entries with
  one key and kind the last one's child is found under all of them (`BencodeTexts.AnyDictionary`).
- **Have messages** turn on a bit chosen by the octet's index, so `HasPiece` sees one piece in eight of them
  (`Peers.HaveMarksIff`).
- **Queue.** Pushing a piece that is queued already breaks its recorded index, though not the order of the heap
  (`DownloadQueues.DownloadQueue.Push`). `RemoveAt` lets an index equal to the length through to a panic, and `Pop` on the empty queue leaves the
  mutex locked (`DownloadQueues.DownloadQueue.RemoveAt`, `DownloadQueues.DownloadQueue.Pop`).
- **Wire.** An id octet of 128 or more reads as choke, because one octet of an unfinished varint reads as 0
  (`Wire.ChokeIff`).

## Model

| member | source | states |
|---|---|---|
| `EngineProgress.CompletesIff` | core/downloader.go:125-254 | a run that completes uncancelled exists if and only if there is a worker, every piece is offered by a peer that is not choking, and the last piece of a non-empty torrent is at least one block long |
| `EngineProgress.CanComplete` | core/downloader.go:150-254 | every reachable state of a lone uncancelled run of such a torrent, whatever happened so far, can be continued to completion |
| `EngineProgress.NeverStuck` | core/downloader.go:150-254 | no deadlock: before completion some goroutine, peer or message router can take a step other than an empty turn of a requesting loop |
| `EngineProgress.BoundedWork` | core/downloader.go:150-254 | the number of such steps in any run is bounded by a number fixed by the setup, plus one scan of the peers for each stray signal |
| `EngineProgress.StepLowers` | core/downloader.go:150-254 | each such step lowers the work left in protocol and downloads together |
| `EngineProgress.CompleteNeeds` | core/downloader.go:228-242 | a completed run had a worker, an offer for every piece, and no short last piece |
| `EndToEnd.SettledMeansFiles` | core/downloader.go:125-254 | over any restarts and cancellations, in every interleaving of goroutines, peers and replies: once all pieces are selected, no channel, dispatcher or worker of any run has one left and no write is under way, each file is its slice of the torrent followed by an older file's tail, and exists if it did or starts before the torrent's end |
| `EndToEnd.SettledMeansOnDisk` | core/torrent/Torrent.go:77-91 | the same in the torrent's own terms: with the segments that BuildFileSegment leaves, file j of the list lies below the torrent's name, or is the name itself for a single file, and holds the bytes from where the files before it end, followed by what an older, longer file held beyond them |
| `EndToEnd.AllWrittenIff` | core/downloader.go:125-254 | over any restarts and cancellations: each piece 0..nPiece-1 was written exactly once and nothing else was, if and only if the engine is settled in that sense |
| `EndToEnd.AbandonedIsNeverWritten` | core/downloader.go:131-142 | a piece left in the job channel of a run whose workers have all left is never written, whatever is started later |
| `EndToEnd.CompletionMeansFiles` | core/downloader.go:150-254 | once a lone uncancelled run has posted completion and its writer is between writes, the same holds of each file |
| `EndToEnd.CompletionMeansOnDisk` | core/torrent/Torrent.go:77-91 | and once a lone uncancelled run has posted completion, every listed file is at its path with its bytes |
| `EndToEnd.CompleteMeansWritten` | core/downloader.go:310-327 | at that point each piece 0..nPiece-1 was written exactly once and nothing else was |
| `EndToEnd.InvAlways` | core/downloader.go:150-254 | what the composition keeps: the protocol's and each download's invariant, hand-over only after the download returned, and files equal to the writes so far in their order |
| `EndToEnd.WriteDoneKeepsFiles` | core/downloader.go:317-322 | the buffer that a writer writes is the piece's part of the torrent |
| `EndToEnd.BusyMoves` | core/downloader.go:191 | pieces being written go up by one exactly with a hand-over and down by one exactly with a finished write |
| `EndToEnd.OnlyAWorkerDownloads` | core/downloader.go:184 | from the moment a requesting loop has begun until it returns, some worker is in download for its piece |
| `EndToEnd.AllFitIffLastFits` | core/downloader.go:99-109 | all pieces are at least a block long if and only if the last one is |
| `EndToEnd.CompletionNeedsFullLastBlock` | core/piece.go:44-46 | a torrent whose last piece is shorter than a block is never completed |
| `ProtocolTheorems.ExactlyOnePlace` | core/downloader.go:158-202 | a selected index is in exactly one job channel, dispatcher, worker or hand-over list, an unselected one nowhere, over all restarts and cancellations |
| `ProtocolTheorems.NoTwoHolders` | core/downloader.go:165-191 | no two workers, of the same run or of different ones, hold the same piece, and a held piece was not handed over |
| `ProtocolTheorems.SendNeverBlocks` | core/downloader.go:222-246 | queued jobs and the dispatcher's pending one equal the workers that wait or left on cancellation, hence at most nWorker, and the dispatcher's send is always possible |
| `ProtocolTheorems.SlotConservation` | core/peer_manager.go:137-152 | IsFree of each peer equals the grants not yet released and stays within 0..3, though the test is an equality |
| `ProtocolTheorems.NoLostWakeUp` | core/peer_manager.go:131-164 | while the lone selector is parked, a peer available for its piece means that some worker is between its slot decrement and its Signal |
| `ProtocolTheorems.ParkedMeansAllTaken` | core/peer.go:46-51 | while the lone selector is parked and no worker owes a Signal, every peer that offers the piece has three grants out |
| `ProtocolTheorems.GrantedHadSlot` | core/peer_manager.go:137-152 | a peer is granted only while it offers the piece and has fewer than three grants out |
| `ProtocolTheorems.LockHolderCanStep` | core/peer_manager.go:134-162 | whoever holds the alert mutex can go on; a grant always finds its worker waiting |
| `ProtocolTheorems.CompletionSafety` | core/downloader.go:231-232 | lone and uncancelled: all pieces selected and a wait count of zero mean that each piece was handed over exactly once and none is queued, pending or held |
| `ProtocolTheorems.PostedMeansHanded` | core/downloader.go:237-239 | completion posted uncancelled means every piece was handed over exactly once |
| `ProtocolHistory.StateTellsHistory` | core/downloader.go:125-254 | in every run of the system: flags, job counts, the wait count and the selection counter are what the steps so far make them, and the waiter exists if and only if some selection found no piece left or came after a noticed cancellation, with the outcome of the first such selection |
| `ProtocolHistory.NextOfRun` | core/downloader.go:213-254 | cancellation can be noticed, Wait can pass, contexts can be cancelled, completion can be posted, and dispatcher, selector and writer can end exactly when the steps before allow it |
| `ProtocolHistory.AlwaysPossible` | core/downloader.go:217-246 | starting again and cancelling are always possible, and the dispatcher selects and sends, and the writer finishes, without waiting |
| `ProtocolHistory.NextOfWorker` | core/downloader.go:158-193 | a waiting worker can leave if and only if its run was cancelled, and can take a job if and only if more went into the channel than came out; a slot is released without waiting |
| `ProtocolHistory.NextOfSelector` | core/peer_manager.go:131-164 | a selector takes a free lock, tries its peers in any order, parks only after the last, and a grant or a response never waits |
| `ProtocolHistory.ReportedIff` | core/downloader.go:226-242 | a run reports completion if and only if its first selection with no piece left or after a noticed cancellation had no piece left |
| `ProtocolCompletion.AllHandedIff` | core/downloader.go:125-254 | over any number of runs, cancelled or not, at any moment: every piece was handed over if and only if all were selected and no job channel, dispatcher or worker of any run has one |
| `ProtocolCompletion.PostedIsRightIff` | core/downloader.go:220-246 | a posted completion, from whichever run, is right if and only if no channel, dispatcher or worker of any run has a piece left |
| `ProtocolCompletion.AbandonedIsLost` | core/downloader.go:131-142 | a piece in the channel of a run whose workers have all left stays there in every continuation, so no later report of completion is right |
| `ProtocolTraces.CancelledRunPostsCompletion` | core/downloader.go:161-165 | for any number of workers from two on, a concrete run with one piece that is cancelled and posts completion with the piece still queued |
| `ProtocolTraces.LateWorkerTakesThePiece` | core/downloader.go:154-165 | a concrete run with three workers that posts completion with nothing queued and nothing handed over: the third worker registered after the wait and holds the piece |
| `ProtocolTraces.ResumedRunPostsCompletion` | core/downloader.go:125-142 | a concrete second run, never cancelled, that posts completion while the piece is still in the first run's channel |
| `ProtocolSafety.InvAlways` | core/downloader.go:125-254 | the invariant holds in every run: books of jobs and wait group, ledger of pieces, slots, selectors and lock, wake-ups, outcome |
| `ProtocolSafety.StepKeepsInv` | core/downloader.go:150-254 | each step of each goroutine keeps it |
| `ProtocolSafety.NothingHeldAtRest` | core/downloader.go:150-206 | with nobody counted in the wait group and nothing cancelled, a lone run holds no piece, although workers join the group themselves |
| `ProtocolSafety.WorkerStepKeepsWake` | core/downloader.go:193-197 | a worker's step keeps the wake-up property; a released slot is always followed by a Signal |
| `ProtocolSafety.SelectorStepKeepsSelectors` | core/peer_manager.go:131-163 | a selector's step keeps the mutex with one holder and each request tied to one waiting worker |
| `ProtocolInvariant.RunStepMoves` | core/downloader.go:213-254 | a step of dispatcher, waiter or writer moves tokens only by selecting a piece or finishing a write |
| `ProtocolInvariant.WorkerStepMoves` | core/downloader.go:154-202 | a worker's step moves tokens only by handing a piece over or releasing a slot |
| `ProtocolInvariant.SelectorStepMoves` | core/peer_manager.go:137-158 | a selector's step moves tokens only by granting a slot |
| `ProtocolProgress.CanStep` | core/downloader.go:150-254 | no deadlock in the protocol alone, as long as the lone run is not done |
| `ProtocolProgress.WorkerCanStep` | core/downloader.go:154-202 | while a worker has not left, some useful step is possible, whatever the worker is blocked on |
| `ProtocolProgress.ParkedIsServed` | core/peer_manager.go:161 | a parked selector will be woken, or the slots it waits for are with workers that can go on |
| `ProtocolProgress.StepKeepsLive` | core/downloader.go:228-250 | a nil job is sent only after the waiter was spawned, goroutines end only after their context, and a parked worker is the one its selector serves |
| `ProtocolWork.UsefulLowersWork` | core/downloader.go:150-254 | every useful step of a lone run lowers a number that counts the work left |
| `ProtocolWork.StrayRaisesWork` | core/peer_manager.go:111 | a signal from elsewhere raises it by at most one scan of the peers |
| `PipelineSafety.InvAlways` | core/piece.go:160-208 | in every interleaving each issued block is in one place, requests in flight are at most ten, and the buffer agrees with the source on answered blocks |
| `PipelineSafety.StepKeepsInv` | core/piece.go:160-208 | each step of loop, peer and router keeps that |
| `PipelineSafety.WindowDiscipline` | core/piece.go:172-185 | issued blocks are a prefix of the partition, at most ten unanswered, and at the loop head nPendingRequest is exactly their number |
| `PipelineSafety.WindowIsFilled` | core/piece.go:172-185 | for a piece of at least a block, a turn of the loop fills the window: ten requests are then unanswered, sent or about to be sent, or all blocks that were left |
| `PipelineSafety.FullMeansSource` | core/piece.go:172 | counting as many bytes as the piece has means that the buffer is the piece |
| `PipelineSafety.ReturnedMeansSource` | core/piece.go:187-189 | a download that returned left the piece's bytes in the buffer, whatever the order of replies |
| `PipelineSafety.LoopTurnsIff` | core/piece.go:172-189 | at its head the loop is left if and only if every block was answered, and turns as long as one was not |
| `PipelineSafety.BufferIsExact` | core/piece.go:160-208 | at any moment each byte of the buffer is the piece's if its block was copied and zero if not |
| `PipelineSafety.AskedBlocks` | core/piece.go:173 | each call from the loop asks for the next blocks only: ten less those pending, or all that are left |
| `PipelineProgress.NeverStarved` | core/piece.go:172-185 | while bytes are missing, something is on its way or the next call of getNextRequest is not empty |
| `PipelineProgress.RankDrops` | core/piece.go:172-205 | every step but an empty turn of the loop lowers the rank |
| `PipelineProgress.BoundedWork` | core/piece.go:172-205 | at most 7 steps per block, plus two, that are not empty turns |
| `PipelineProgress.CanProceed` | core/piece.go:160-208 | until the download returns, a step that is no empty turn is possible |
| `PipelineProgress.CanFinish` | core/piece.go:160-190 | any run of a piece of at least a block can be continued until the download returns |
| `PipelineProgress.ShortPieceStuck` | core/piece.go:44-46 | on a shorter piece nothing is ever asked for |
| `PipelineProgress.ReturnsIffFits` | core/piece.go:38-52 | a download can return if and only if the piece has at least a block or is empty |
| `Blocks.RequestInfoIsBlock` | core/piece.go:38-52 | at every index reached, the modulus is the rest of the piece and the flag marks the last block; division by zero exactly for short pieces |
| `Blocks.NextRequestsIsSlice` | core/piece.go:54-98 | one call hands out the next blocks of the partition, as many as asked for and left |
| `Blocks.NextRequestsPanics` | core/piece.go:54-63 | a fresh piece panics on its first request if and only if something is asked for and it is shorter than a block |
| `Blocks.BatchIndependence` | core/piece.go:54-98 | for any sequence of window sizes, zero and negative ones included, all requests together are a prefix of the unique partition, and endOfPiece is set exactly when it is exhausted |
| `Blocks.BlocksTile` | core/piece.go:38-52 | the blocks lie end to end without gap, none empty, up to the end of the piece |
| `Blocks.BlockOfOffset` | core/piece.go:38-52 | every offset of a piece lies in the block its number says |
| `Pieces.Piece.constructor` | core/piece.go:130-148 | start offset and an all-off mask with one octet per block |
| `Pieces.Piece.GetNextRequest` | core/piece.go:54-98 | the loop returns the next slice of the partition, moves the cursor past it, and changes nothing on a division by zero |
| `Pieces.Piece.WriteToBuffer` | core/piece.go:201-208 | copies into the range and counts, does nothing when full, panics exactly when the range is outside |
| `Pieces.Piece.PutPiece` | core/piece.go:192-199 | takes a block unless it is marked or the piece is full; then one request fewer is pending and the bytes are in place; panics exactly beyond the mask or the buffer |
| `Pieces.PutIsReceiveCopyAdd` | core/piece.go:192-206 | for every reply of a reachable download, putPiece does what the step model's three router steps do one after the other, each possible after the one before |
| `Pieces.Piece.HasSubPiece` | core/piece.go:210-218 | reads the mask bit of the block at an offset; panics exactly beyond the mask |
| `Pieces.Piece.UpdateBitfield` | core/piece.go:220-227 | turns on the bit of the block at an offset and no other bit of any octet |
| `Pieces.MaskIsSetOfBlocks` | core/piece.go:210-227 | after any sequence of marks, the mask has a block if and only if some mark had an offset in it |
| `Pieces.OffsetsFitMask` | core/piece.go:143-145 | no offset of the piece is outside the mask |
| `Pieces.Piece.Reset` | core/piece.go:154-158 | what reset clears; the flag endOfPiece and nPendingRequest are not touched |
| `Bits.BitMask` | utils/utils.go:111-128 | action 1 turns on exactly the listed bits, action 0 turns off exactly those, any other action changes nothing; which bit is which says `Bits.BitIsMask` |
| `Bits.BitIsMask` | utils/utils.go:129-134 | bit q of an octet is the one with weight 2^q, written out for the eight of them |
| `Bits.MarkBit` | core/piece.go:220-227 | bit 7 - k%8 of octet k/8 is bit k of the field and no other |
| `Torrents.Torrent.BuildFileSegment` | core/torrent/Torrent.go:154-200 | the segments are the listed files in order, each starting where the one before ends, at the paths name/path for several files and name for one; the length is their sum; piece length and hashes come from the mode's info, and stay for a multi-file torrent without files |
| `Torrents.SegmentStart` | core/torrent/Torrent.go:163-169 | file j starts at the sum of the lengths before it |
| `Torrents.DistinctIffListedOnce` | core/torrent/Torrent.go:77-91 | segments go to different paths if and only if the torrent lists no path twice |
| `Torrents.PieceInside` | core/downloader.go:91-107 | every piece starts inside the torrent, is not empty, not longer than a piece, and ends inside |
| `Torrents.PieceOfOffset` | core/downloader.go:91-107 | every offset of the torrent lies in the piece numbered by the quotient |
| `Torrents.PiecesApart` | core/downloader.go:91-107 | pieces do not overlap |
| `Downloaders.Downloader.BuildQueue` | core/downloader.go:91-120 | the pieces are the tiling of the torrent, the queue is a heap that holds each of them once, and the bit field has room for all |
| `Downloaders.Downloader.BuiltFromTorrent` | core/downloader.go:91-120 | what was built, in the torrent's numbers: the rounded-up piece count, each piece's index, start and length, the queue order by availability, the recorded places, and the bit field's rounded-up size |
| `Downloaders.Downloader.CutAll` | core/downloader.go:98-112 | the loop cuts piece i at index i and pushes it, with the queue in order throughout |
| `Downloaders.Downloader.SelectPiece` | core/downloader.go:277-301 | the piece at the last index with both counters moved on, or nil and completion once all were selected; and that is what the protocol's dispatcher takes it for |
| `Writers.WritePiece` | core/writer.go:39-113 | the loop with its three cases and running indices writes, for every segment the piece meets, exactly the intersection at the right file offset; all slices are in range, and what remains is what lies beyond the last segment: nothing, if and only if the piece is empty or ends inside |
| `Writers.WriteRound` | core/writer.go:57-108 | one round puts the segment's part of the piece in its file and nothing else, and takes off what it wrote |
| `Writers.Locate` | core/writer.go:62-94 | the three cases on the running indices give the file offset and the buffer range of the intersection; the segments that no case covers are exactly those before the piece |
| `Writers.BeyondUntouched` | core/writer.go:53-55 | leaving the loop when nothing remains skips no segment |
| `Writers.Overlay` | core/writer.go:24-28 | a write at an offset: data in place, gap filled with zeros, the rest kept; an empty write does not extend |
| `Assembly.AnyOrderAssembles` | core/writer.go:39-113 | for contiguous files with distinct paths and any piece length, after all pieces were written in any order with any repetitions, each file is its slice of the torrent followed by an older file's tail |
| `Assembly.ExactLengthIff` | core/writer.go:24-28 | a file is exactly its slice if and only if it was not longer before |
| `Assembly.ExistsIffStartsInside` | core/writer.go:51-55 | a file exists afterwards if and only if it did before or it starts before the torrent's end |
| `Assembly.OtherFilesUntouched` | core/writer.go:99 | files of other paths are not touched |
| `Assembly.WrittenPiecesStay` | core/writer.go:39-113 | after any sequence of writes, every written piece's bytes are in place in every file, and later writes do not undo them |
| `Assembly.WriteTwice` | core/writer.go:39-113 | writing a piece again changes nothing |
| `Assembly.OnFirstAt` | core/writer.go:99 | a piece's effect on one file is that of the file's own segment |
| `Assembly.PieceBytesPlace` | core/downloader.go:99-109 | the bytes assembled are those of the downloader's tiling |
| `DownloadQueues.DownloadQueue.Push` | core/downloadQueue.go:40-48 | any piece: keeps heap order and adds exactly this piece; all places are recorded afterwards if and only if they were before and the piece was not queued |
| `DownloadQueues.DownloadQueue.Pop` | core/downloadQueue.go:50-63 | takes the last slot, unlinks its piece, keeps the rest; recorded indices stay right if and only if the piece was queued once; the empty queue gives nil and stays locked |
| `DownloadQueues.DownloadQueue.RemoveAt` | core/downloadQueue.go:15-23 | removes exactly the piece at i with QueueIndex -1 and keeps order, and the recorded indices if and only if it was queued once; exits beyond the length, panics at it |
| `DownloadQueues.DownloadQueue.FixQueue` | core/downloadQueue.go:67-69 | restores heap order after any change at one node, keeping the pieces |
| `DownloadQueues.DownloadQueue.Reprioritise` | core/downloader.go:264-272 | any change of one queued piece's availability, then the fix: a heap of the same pieces |
| `DownloadQueues.DownloadQueue.Swap` | core/downloadQueue.go:33-38 | exchanges two pieces and keeps every recorded index right |
| `DownloadQueues.DownloadQueue.Init` | core/downloader.go:113 | any indexed queue becomes a heap of the same pieces |
| `DownloadQueues.DownloadQueue.Down` | core/downloadQueue.go:67-69 | sifting a node down within the first n slots leaves one heap, or tells that nothing moved |
| `DownloadQueues.DownloadQueue.Up` | core/downloadQueue.go:67-69 | sifting a node up mends a heap that is wrong above it |
| `Heaps.RootIsLeast` | core/downloadQueue.go:29-31 | the first piece of a heap has the least availability |
| `Heaps.HeapIff` | core/downloadQueue.go:67-69 | heap order is that of container/heap: no key is greater than those at 2p+1 and 2p+2 |
| `Heaps.SwapDown` | core/downloadQueue.go:33-38 | exchanging a node with its smaller child moves the only fault to that child |
| `Heaps.SwapUp` | core/downloadQueue.go:33-38 | exchanging a node with its parent moves the only fault to the parent |
| `Heaps.ChangeOneKey` | core/downloadQueue.go:64-69 | an arbitrary change of one key leaves the order wrong at that node only |
| `Peers.Peer.UpdateBitfield` | core/peer.go:53-60 | turns on one bit, chosen by the octet's index; nothing beyond the field |
| `Peers.HaveMarksIff` | core/peer.go:53-60 | after a have message HasPiece holds if and only if it did before or the index is aligned with its octet |
| `Peers.Peer.HasPiece` | core/peer.go:115-127 | piece k is the bit of weight 128 >> k%8 in octet k/8, and no piece lies beyond the field |
| `Peers.Peer.IsAvailable` | core/peer.go:46-51 | a peer is available if and only if it is not choking, has the piece, and its counter is not three |
| `Peers.AvailableIsProtocols` | core/peer.go:46-51 | with flags and fields that give the offers, that is the test the protocol makes |
| `BencodeTheorems.ParseUndoesPrintIff` | parser/bencode_parser.go:167-381 | for every container that the source's maps can hold: printing gets through, and parsing its text gives it back with its order and takes in all of the text, if and only if it has no signed number, no empty container, no list of several strings and no list of several kinds |
| `BencodeTheorems.ParsedIsHoldable` | parser/bencode_parser.go:179-253 | whatever the text, keys repeated or not, the parser returns a container in which entries of one key and kind have one child, as maps hold it |
| `BencodeTheorems.MarkStandsInPlace` | parser/bencode_parser.go:142-160 | a container mark that getField reports stands where it stopped, unless one of its two fields is a number that lacks its end |
| `BencodeTheorems.ReprintIsText` | parser/bencode_parser.go:322-381 | printing what was parsed from such a text gives the text again |
| `BencodeTheorems.PositionsCutOutChild` | parser/bencode_parser.go:197-250 | in printed text at any position, the recorded InnerStartingPosition and EndingPosition of a container inside a dictionary cut out exactly its printed form |
| `BencodeTheorems.PrintOfContent` | parser/bencode_parser.go:322-381 | printing does not depend on recorded positions |
| `BencodeTheorems.RereadKeepsIff` | parser/bencode_parser.go:132-138 | what a printed container reads back as is the same container if and only if it is supported |
| `BencodeTheorems.UnsignedIff` | parser/bencode_parser.go:336-341 | a scalar survives unless Atoi accepts it and it has a sign |
| `BencodeTheorems.SignAndEmptinessAreLost` | parser/bencode_parser.go:132-138 | a concrete signed number that comes back changed, and an empty dictionary that stops the parser |
| `BencodeTexts.ChunkCases` | parser/bencode_parser.go:93-160 | one round of getField on any text, from the first of d, l, e and the colon on: a length that is no number counts as zero, a negative one or one beyond the text panics, text before an e or with an i in it is a number, and otherwise nothing is read |
| `BencodeTexts.SecondNumberIsLost` | parser/bencode_parser.go:263-279 | of two numbers in a row in a list the first is kept as a string and the second is lost |
| `BencodeTexts.NumberBeforeContainerIsLost` | parser/bencode_parser.go:280-306 | a number in a list right before a dictionary or a list is lost |
| `BencodeTexts.AnyDictionary` | parser/bencode_parser.go:179-253 | in any text that parses: entries lie end to end between the d and its e, each has the key and positions that the reader finds at its start, and the child of the last entry of its key and kind |
| `BencodeTexts.EntryStands` | parser/bencode_parser.go:186-250 | in any text: a container child opens at InnerStartingPosition with the mark of its kind, ends right before EndingPosition with e, and is what the parser reads there; a scalar ends where it was read |
| `BencodeTexts.AnyList` | parser/bencode_parser.go:259-316 | in any text that parses: each list or dictionary in a list has its number among its kind for a key, and strings have none |
| `BencodeTexts.TorrentInfo` | core/torrent.go:126-138 | for a torrent file written out in characters, the bytes to be hashed |
| `BencodeRoundTrip.ParsePrinted` | parser/bencode_parser.go:167-320 | parsing printed text anywhere in a file gives a fixed function of the container and the position, and stops at its closing mark |
| `BencodeRoundTrip.ParsePrintedEntries` | parser/bencode_parser.go:186-253 | the dictionary loop on printed entries, entry by entry |
| `BencodeRoundTrip.ParsePrintedStrings` | parser/bencode_parser.go:263-279 | the list loop on printed strings drops them in pairs and keeps an odd last one |
| `BencodeRoundTrip.ParsePrintedContainers` | parser/bencode_parser.go:280-306 | the list loop on printed dictionaries or lists keeps all and numbers them |
| `BencodeRoundTrip.ReadString` | parser/bencode_parser.go:146-154 | a printed string is read whole, whatever characters it holds |
| `BencodeRoundTrip.ReadNumber` | parser/bencode_parser.go:116-140 | a printed number is read without its sign |
| `BencodeParser.ScanText` | parser/bencode_parser.go:104-140 | the inner loop of getField collects the text before the stop character and the digits after the first i |
| `BencodeParser.ReadField` | parser/bencode_parser.go:93-165 | getField computes the specification's field: two rounds, with the later container mark |
| `BencodeParser.Parse` | parser/bencode_parser.go:167-320 | on every text in which no container mark follows an unfinished number, the imperative parser computes the specification's parse or panics with it |
| `BencodeParser.ParseDictionary` | parser/bencode_parser.go:181-255 | on such texts the loop with its list of entries and its maps by kind and key computes the specification's entries, each with the child last stored under its key and kind |
| `BencodeParser.ParseList` | parser/bencode_parser.go:259-316 | on such texts the list loop computes the specification's items |
| `BencodeParser.UnmarshallFromArray` | parser/bencode_parser.go:70-84 | a dictionary at the root is returned; a list is read and dropped, anything else ignored, both giving an empty dictionary |
| `BencodeParser.ToBencode` | parser/bencode_parser.go:322-381 | the printer computes the specification's text, or panics exactly on a list of several kinds |
| `BencodeParser.ListToBencode` | parser/bencode_parser.go:358-378 | looking children up by their position among all works for lists of one kind and runs past the end for all others |
| `BencodeParser.InfoBytes` | core/torrent.go:126-138 | the bytes hashed are the slice between the positions of the last info dictionary |
| `BencodeParser.InfoBytesAreInfo` | core/torrent.go:130-138 | for the text of a supported torrent they are exactly the printed info dictionary |
| `Decimals.ValueOfItoa` | parser/bencode_parser.go:330 | the value of a printed length is the length |
| `BencodeTexts.ItoaOfValue` | parser/bencode_parser.go:330 | and printing the value of a numeral gives it back if and only if it has no leading zero |
| `Wire.ParseUndoesEncode` | core/msg_parser.go:68-105 | every kind of message with 32-bit fields is parsed back from its frame |
| `WireOctets.FrameIsReadAs` | core/msg_parser.go:68-105 | a whole frame is told by its fifth octet, 0 to 8 each their kind and 0 again from 128 on, with every field by its place and the weights of its octets, and a panic exactly for frames too short for their fields |
| `WireOctets.KeepAliveIff` | core/msg_parser.go:72-77 | a whole frame is keep-alive if and only if it begins with four zeros |
| `WireOctets.RequestOctets` | core/torrent_message.go:201-209 | a request is sent as 00 00 00 13, 06, and three fields of four octets, each the number modulo 2^32 by weight |
| `WireOctets.FrameOctets` | core/torrent_message.go:11-21 | the frames of the standard, their lengths and ids in octets |
| `WireOctets.LongFrameOctets` | core/msg_parser.go:68-105 | the same for bit fields and blocks, with lengths by weight |
| `Wire.StreamOfMessages` | core/peer_manager.go:57-91 | any sequence of messages sent back to back comes out as that sequence, whatever follows |
| `Wire.CutStream` | core/peer_manager.go:60-75 | a stream cut anywhere inside a frame yields exactly the whole messages before it |
| `Wire.HandleMsgStream` | core/peer_manager.go:53-92 | the reading loop computes the specification's frames |
| `Wire.RequestSurvivesIff` | core/torrent_message.go:201-209 | a marshalled request is parsed back if and only if its fields fit 32 bits |
| `Wire.MarshalIsEncode` | core/torrent_message.go:157-209 | the two Marshal functions in use produce the frames whose octets `WireOctets.FrameOctets` gives |
| `Wire.ReadOfBigEndian` | utils/utils.go:141-155 | four octets hold a number modulo 2^32 |
| `WireOctets.IntToByteOctets` | utils/utils.go:141-155 | what IntToByte writes for every width: octet by octet, by weight, and a panic for one octet from 128 on |
| `Wire.FrameParts` | core/msg_parser.go:68-80 | length, id and body are found again by position |
| `Wire.ChokeIff` | core/msg_parser.go:79-82 | a whole frame is parsed as choke if and only if its id octet is 0 or at least 128 |
| `Wire.HandShakeSurvivesIff` | core/torrent_message.go:86-112 | a handshake is read back if and only if hash and peer id have 20 octets |
| `WireOctets.HandShakeOctets` | core/torrent_message.go:86-94 | a handshake is 19, the protocol's name, eight zeros, the hash and the peer id |
| `WireOctets.HandShakeReadAs` | core/torrent_message.go:98-112 | 68 octets or more are taken as a handshake, by place, whatever they say |

## Left out

- Sockets, trackers (HTTP and UDP), gRPC, UPnP, logging, the console and the torrent manager's states: I/O and plumbing around the engine.
- Peers: the peer set, choke flags and bit fields are fixed during a run, and each peer answers a request at most once with the right bytes; connecting and dropping peers is not modelled.
- Failures: writes to sockets and files succeed. The worker's error path panics (`core/downloader.go:187`), and `reset` does not prepare a second download.
- Writing: a file is its path components and its bytes; joining and cleaning paths is left to the operating system, and distinct files are assumed to have distinct paths. One piece is written in one step of the composition; its loop is `Writers.WritePiece`.
- Selection: sequential mode only, the one set at construction. Random and rarest-first selection are not modelled.
- Availability counts: `updateAvailability` changes a copy of the piece (`core/piece.go:101`), so the queue's properties are stated for an arbitrary change of one key.
- Duplicate blocks: `putPiece` never marks the mask, so the step model drops a block only when the piece is full; `Pieces.Piece.PutPiece` has the test.
- Atomicity: selection with its two counters, `nPendingRequest++` and `--`, and lock-Signal-unlock of a worker are one step each, as are the response to a request and the unlock after it, and the unlock after Wait and the lock that follows it; the pieces of one connection have a router each.
- Floats: `math.Ceil`, `math.Exp2` and `math.Abs` are exact integer operations; file lengths are not negative and the piece length is not zero.
- Bencode: a text is a sequence of characters, one per octet; StartingPosition of the root and InnerEndingPosition are not kept.
- SHA-1 and the bencode library used for downloading `.torrent` files are not part of this model.
- ProtocolTheorems.NoLostWakeUp: speaks of a lone run, because with several runs one Signal may wake another run's selector.
- EngineProgress.CompletesIff: speaks of lone uncancelled runs; under cancellation the engine promises no completion.
- BencodeParser.Parse: gives up where a container mark follows a number without its end and another character stands at the position; there the source may overwrite the enclosing dictionary, or go back to the start of the text without ever ending.
- BencodeParser.ParseDictionary: gives up on the same texts, for the same reason.
- BencodeParser.ParseList: gives up on the same texts, for the same reason.
- DownloadQueues.DownloadQueue.Reprioritise: is for a queue in which no piece is queued twice, because the fix starts from one recorded index only.
