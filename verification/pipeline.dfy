/** Downloading one piece from one honest peer: the requesting loop of piece.download, the peer, and the
    message router that calls putPiece run interleaved. Sending a request and counting it are separate steps,
    as are the three actions of putPiece. */
module Pipeline {
  import opened Common
  import opened Blocks

  const MAX_PENDING_REQUEST := 10

  /** Where the requesting loop is. A batch holds the requests got but not yet sent. */
  datatype Loop =
    | NotBegun
    | AtHead
    | Sending(batch: seq<Block>)
    | Counting(batch: seq<Block>)   // one request is out, nPendingRequest++ comes next
    | Returned

  /** Where putPiece is: after nPendingRequest--, and after the copy into the buffer. */
  datatype Router = Idle | Uncounted(block: Block) | Copied(block: Block)

  /** `outstanding` are the requests the peer has not answered, `replies` its answers on the way, and
      `answered` the blocks added to `downloaded`, in that order. */
  datatype State = State(
    requestIndex: nat,
    endOfPiece: bool,
    nPending: int,
    downloaded: nat,
    buffer: seq<byte>,
    loop: Loop,
    outstanding: multiset<Block>,
    replies: multiset<Block>,
    router: Router,
    answered: seq<Block>)

  datatype Step =
    | Begin
    | Ask
    | Write
    | Count
    | Leave
    | Reply(block: Block)
    | Receive(block: Block)
    | Copy
    | Add

  function Initial(): State {
    State(0, false, 0, 0, [], NotBegun, multiset{}, multiset{}, Idle, [])
  }

  function AfterBatch(batch: seq<Block>): Loop {
    if batch == [] then AtHead else Sending(batch)
  }

  /** copy(buffer[at : at+len(data)], data) */
  function Overwrite(buffer: seq<byte>, at: nat, data: seq<byte>): (r: seq<byte>)
    requires at + |data| <= |buffer|
    ensures |r| == |buffer|
    ensures forall x :: 0 <= x < |r| ==> r[x] == if at <= x < at + |data| then data[x - at] else buffer[x]
  {
    buffer[..at] + data + buffer[at + |data|..]
  }

  predicate InPiece(source: seq<byte>, b: Block) {
    b.begin + b.length <= |source|
  }

  /** The bytes an honest peer sends for a block. */
  function Payload(source: seq<byte>, b: Block): seq<byte>
    requires InPiece(source, b)
  {
    source[b.begin..b.begin + b.length]
  }

  function Window(s: State): int {
    MAX_PENDING_REQUEST - s.nPending
  }

  function NextBatch(source: seq<byte>, s: State): Option<Batch> {
    NextRequests(|source|, s.requestIndex, s.endOfPiece, Window(s))
  }

  predicate Enabled(source: seq<byte>, s: State, step: Step) {
    match step
    case Begin => s.loop.NotBegun?
    case Ask => s.loop.AtHead? && s.downloaded < |source| && NextBatch(source, s).Some?
    case Write => s.loop.Sending? && s.loop.batch != []
    case Count => s.loop.Counting?
    case Leave => s.loop.AtHead? && s.downloaded >= |source|
    case Reply(b) => b in s.outstanding
    case Receive(b) => b in s.replies && s.router.Idle?
    case Copy =>
      s.router.Uncounted? && s.router.block.begin + s.router.block.length <= |s.buffer|
      && InPiece(source, s.router.block)
    case Add => s.router.Copied?
  }

  function Apply(source: seq<byte>, s: State, step: Step): State
    requires Enabled(source, s, step)
  {
    match step
    case Begin => s.(buffer := seq(|source|, _ => 0), loop := AtHead)
    case Ask =>
      var batch := NextBatch(source, s).value;
      s.(requestIndex := batch.requestIndex, endOfPiece := batch.endOfPiece, loop := AfterBatch(batch.requests))
    case Write => s.(outstanding := s.outstanding + multiset{s.loop.batch[0]}, loop := Counting(s.loop.batch[1..]))
    case Count => s.(nPending := s.nPending + 1, loop := AfterBatch(s.loop.batch))
    case Leave => s.(loop := Returned)
    case Reply(b) => s.(outstanding := s.outstanding - multiset{b}, replies := s.replies + multiset{b})
    case Receive(b) =>
      var t := s.(replies := s.replies - multiset{b});
      if s.downloaded < |source| then t.(nPending := s.nPending - 1, router := Uncounted(b)) else t
    case Copy =>
      s.(buffer := Overwrite(s.buffer, s.router.block.begin, Payload(source, s.router.block)),
         router := Copied(s.router.block))
    case Add =>
      s.(downloaded := s.downloaded + s.router.block.length, answered := s.answered + [s.router.block], router := Idle)
  }

  predicate Admissible(source: seq<byte>, steps: seq<Step>)
    decreases |steps|, 0
  {
    steps == []
    || (Admissible(source, steps[..|steps| - 1])
        && Enabled(source, Execute(source, steps[..|steps| - 1]), steps[|steps| - 1]))
  }

  function Execute(source: seq<byte>, steps: seq<Step>): State
    requires Admissible(source, steps)
    decreases |steps|, 1
  {
    if steps == [] then Initial()
    else Apply(source, Execute(source, steps[..|steps| - 1]), steps[|steps| - 1])
  }
}
