/** Peer messages on the wire: length-prefixed frames (BEP 3, section "peer messages") and the handshake. */
module Wire {
  import opened Common

  const WORD: int := 0x1_0000_0000

  // ---------------------------------------------------------------- integers

  /** binary.BigEndian.PutUint32(uint32(n)): the value modulo 2^32. */
  function BigEndian32(n: nat): (r: seq<byte>)
    ensures |r| == 4
  {
    [(n / 0x100_0000 % 256) as byte, (n / 0x1_0000 % 256) as byte, (n / 0x100 % 256) as byte, (n % 256) as byte]
  }

  function Read32(b: seq<byte>, at: nat): (n: nat)
    requires at + 4 <= |b|
    ensures n < WORD
  {
    b[at] as int * 0x100_0000 + b[at + 1] as int * 0x1_0000 + b[at + 2] as int * 0x100 + b[at + 3] as int
  }

  /** One octet split off at the low end. */
  lemma LowOctet(n: nat, k: nat)
    requires k > 0
    ensures n / k % 0x100 == n / k - 0x100 * (n / k / 0x100)
  {}

  lemma DivTwice(n: nat)
    ensures n / 0x100 / 0x100 == n / 0x1_0000 && n / 0x1_0000 / 0x100 == n / 0x100_0000
    ensures n / 0x100_0000 / 0x100 == n / WORD
  {}

  lemma ReadOfBigEndian(n: nat)
    ensures Read32(BigEndian32(n), 0) == n % WORD
  {
    DivTwice(n);
    LowOctet(n, 1);
    LowOctet(n, 0x100);
    LowOctet(n, 0x1_0000);
    LowOctet(n, 0x100_0000);
    var b := BigEndian32(n);
    assert b[3] as int == n - 0x100 * (n / 0x100);
    assert b[2] as int == n / 0x100 - 0x100 * (n / 0x1_0000);
    assert b[1] as int == n / 0x1_0000 - 0x100 * (n / 0x100_0000);
    assert b[0] as int == n / 0x100_0000 - 0x100 * (n / WORD);
    assert n % WORD == n - WORD * (n / WORD);
  }

  /** utils.IntToByte; None is the panic of a varint that does not fit. */
  function IntToByte(n: nat, nByte: nat): (r: Option<seq<byte>>)
    ensures r.Some? ==> |r.value| == nByte
  {
    if nByte < 2 then
      if nByte == 1 && n < 128 then Some([n as byte]) else None
    else if nByte < 4 then
      Some([(n / 0x100 % 256) as byte, (n % 256) as byte] + Zeros(nByte - 2))
    else if nByte < 8 then Some(BigEndian32(n) + Zeros(nByte - 4))
    else if nByte == 8 then Some(BigEndian32(n / WORD) + BigEndian32(n))
    else Some(Zeros(nByte))
  }

  function Zeros(n: nat): seq<byte> {
    seq(n, _ => 0)
  }

  // ---------------------------------------------------------------- messages

  const CHOKE: nat := 0
  const UNCHOKE: nat := 1
  const INTERESTED: nat := 2
  const UNINTERESTED: nat := 3
  const HAVE: nat := 4
  const BITFIELD: nat := 5
  const REQUEST: nat := 6
  const PIECE: nat := 7
  const CANCEL: nat := 8

  const DEFAULT_MSG_LEN: nat := 1
  const REQUEST_MSG_LEN: nat := 13
  const PIECE_MSG_LEN: nat := 9

  datatype Msg =
    | KeepAlive
    | Choke
    | UnChoke
    | Interested
    | UnInterested
    | Have(pieceIndex: nat)
    | Bitfield(bits: seq<byte>)
    | Request(pieceIndex: nat, beginIndex: nat, blockLength: nat)
    | Block(pieceIndex: nat, beginIndex: nat, payload: seq<byte>)
    | Cancel(pieceIndex: nat, beginIndex: nat, blockLength: nat)
    | Other(id: nat, length: nat)

  function Abs(x: int): nat {
    if x < 0 then -x else x
  }

  /** binary.Uvarint of one octet: an unfinished varint reads as 0. */
  function MessageId(b: byte): nat {
    if b < 128 then b as nat else 0
  }

  function ParseBitfield(msg: seq<byte>, length: nat): Option<Msg> {
    var size := Abs(length - DEFAULT_MSG_LEN);
    if size + 5 > |msg| then None else Some(Bitfield(msg[5..size + 5]))
  }

  function ParseHave(msg: seq<byte>): Option<Msg> {
    if |msg| < 9 then None else Some(Have(Read32(msg, 5)))
  }

  function ParseRequest(msg: seq<byte>): Option<Msg> {
    if |msg| < 17 then None else Some(Request(Read32(msg, 5), Read32(msg, 9), Read32(msg, 13)))
  }

  function ParseCancel(msg: seq<byte>): Option<Msg> {
    if |msg| < 17 then None else Some(Cancel(Read32(msg, 5), Read32(msg, 9), Read32(msg, 13)))
  }

  function ParseBlock(msg: seq<byte>, length: nat): Option<Msg> {
    var size := Abs(length - PIECE_MSG_LEN);
    if |msg| < 13 || size + 13 > |msg| then None
    else Some(Block(Read32(msg, 5), Read32(msg, 9), msg[13..size + 13]))
  }

  function Dispatch(id: nat, length: nat, msg: seq<byte>): Option<Msg> {
    if id == BITFIELD then ParseBitfield(msg, length)
    else if id == REQUEST then ParseRequest(msg)
    else if id == PIECE then ParseBlock(msg, length)
    else if id == HAVE then ParseHave(msg)
    else if id == CANCEL then ParseCancel(msg)
    else if id == UNCHOKE then Some(UnChoke)
    else if id == CHOKE then Some(Choke)
    else if id == INTERESTED then Some(Interested)
    else if id == UNINTERESTED then Some(UnInterested)
    else Some(Other(id, length))
  }

  /** ParseMsg on a whole frame; None is the panic of a slice out of range. */
  function ParseMsg(msg: seq<byte>): Option<Msg> {
    if |msg| < 4 then None
    else if Read32(msg, 0) == 0 then Some(KeepAlive)
    else if |msg| < 5 then None
    else Dispatch(MessageId(msg[4]), Read32(msg, 0), msg)
  }

  // ---------------------------------------------------------------- encoding

  /** RequestMsg.Marshal: the pieces that IntToByte gives, put together. */
  function MarshalRequest(pieceIndex: nat, beginIndex: nat, blockLength: nat): Option<seq<byte>> {
    Join([IntToByte(REQUEST_MSG_LEN, 4), IntToByte(REQUEST, 1), IntToByte(pieceIndex, 4), IntToByte(beginIndex, 4),
          IntToByte(blockLength, 4)])
  }

  function MarshalInterested(): Option<seq<byte>> {
    Join([IntToByte(DEFAULT_MSG_LEN, 4), IntToByte(INTERESTED, 1)])
  }

  function Join(parts: seq<Option<seq<byte>>>): Option<seq<byte>> {
    if parts == [] then Some([])
    else if parts[0].None? then None
    else
      match Join(parts[1..])
      case None => None
      case Some(rest) => Some(parts[0].value + rest)
  }

  function Frame(id: nat, body: seq<byte>): seq<byte>
    requires id < 128
  {
    BigEndian32(1 + |body|) + [id as byte] + body
  }

  /** The frame of a message as the standard has it. */
  function Encode(m: Msg): seq<byte>
    requires !m.Other?
  {
    match m
    case KeepAlive => BigEndian32(0)
    case Choke => Frame(CHOKE, [])
    case UnChoke => Frame(UNCHOKE, [])
    case Interested => Frame(INTERESTED, [])
    case UnInterested => Frame(UNINTERESTED, [])
    case Have(i) => Frame(HAVE, BigEndian32(i))
    case Bitfield(bits) => Frame(BITFIELD, bits)
    case Request(i, b, n) => Frame(REQUEST, BigEndian32(i) + BigEndian32(b) + BigEndian32(n))
    case Block(i, b, payload) => Frame(PIECE, BigEndian32(i) + BigEndian32(b) + payload)
    case Cancel(i, b, n) => Frame(CANCEL, BigEndian32(i) + BigEndian32(b) + BigEndian32(n))
  }

  /** What survives four octets per field, and a frame length of four octets. */
  predicate Encodable(m: Msg) {
    match m
    case Have(i) => i < WORD
    case Bitfield(bits) => 1 + |bits| < WORD
    case Request(i, b, n) => i < WORD && b < WORD && n < WORD
    case Block(i, b, payload) => i < WORD && b < WORD && 9 + |payload| < WORD
    case Cancel(i, b, n) => i < WORD && b < WORD && n < WORD
    case Other(_, _) => false
    case _ => true
  }

  lemma MarshalIsEncode(i: nat, b: nat, n: nat)
    ensures MarshalRequest(i, b, n) == Some(Encode(Request(i, b, n)))
    ensures MarshalInterested() == Some(Encode(Interested))
  {
    hide BigEndian32;
    var words := [BigEndian32(i), BigEndian32(b), BigEndian32(n)];
    JoinOf(BigEndian32(REQUEST_MSG_LEN), [REQUEST as byte], words);
    JoinOf(BigEndian32(DEFAULT_MSG_LEN), [INTERESTED as byte], []);
    FourOctets(REQUEST_MSG_LEN);
    FourOctets(DEFAULT_MSG_LEN);
    FourOctets(i);
    FourOctets(b);
    FourOctets(n);
    assert [IntToByte(REQUEST_MSG_LEN, 4), IntToByte(REQUEST, 1), IntToByte(i, 4), IntToByte(b, 4), IntToByte(n, 4)]
           == Parts(BigEndian32(REQUEST_MSG_LEN), [REQUEST as byte], words);
    assert [IntToByte(DEFAULT_MSG_LEN, 4), IntToByte(INTERESTED, 1)]
           == Parts(BigEndian32(DEFAULT_MSG_LEN), [INTERESTED as byte], []);
    FlatOfThree(BigEndian32(i), BigEndian32(b), BigEndian32(n));
  }

  lemma FourOctets(n: nat)
    ensures IntToByte(n, 4) == Some(BigEndian32(n))
  {
    assert BigEndian32(n) + Zeros(0) == BigEndian32(n);
  }

  lemma FlatOfThree(a: seq<byte>, b: seq<byte>, c: seq<byte>)
    ensures Flat([a, b, c]) == a + b + c
  {
    assert [a, b, c][1..] == [b, c] && [b, c][1..] == [c] && [c][1..] == [];
    assert Flat([c]) == c + [] == c;
    assert Flat([b, c]) == b + c;
    assert a + (b + c) == a + b + c;
  }

  function Parts(length: seq<byte>, id: seq<byte>, words: seq<seq<byte>>): seq<Option<seq<byte>>> {
    [Some(length), Some(id)] + seq(|words|, k requires 0 <= k < |words| => Some(words[k]))
  }

  function Flat(words: seq<seq<byte>>): seq<byte> {
    if words == [] then [] else words[0] + Flat(words[1..])
  }

  lemma {:induction false} JoinWords(words: seq<seq<byte>>)
    ensures Join(seq(|words|, k requires 0 <= k < |words| => Some(words[k]))) == Some(Flat(words))
  {
    if words != [] {
      JoinWords(words[1..]);
      assert seq(|words|, k requires 0 <= k < |words| => Some(words[k]))[1..]
             == seq(|words[1..]|, k requires 0 <= k < |words[1..]| => Some(words[1..][k]));
    }
  }

  lemma JoinOf(length: seq<byte>, id: seq<byte>, words: seq<seq<byte>>)
    ensures Join(Parts(length, id, words)) == Some(length + id + Flat(words))
  {
    JoinWords(words);
    var parts := Parts(length, id, words);
    assert parts[1..][1..] == seq(|words|, k requires 0 <= k < |words| => Some(words[k]));
    assert length + (id + Flat(words)) == length + id + Flat(words);
  }

  // ---------------------------------------------------------------- one frame

  lemma ReadShifted(a: seq<byte>, n: nat, c: seq<byte>)
    ensures Read32(a + BigEndian32(n) + c, |a|) == n % WORD
  {
    ReadOfBigEndian(n);
    var all := a + BigEndian32(n) + c;
    assert forall k :: 0 <= k < 4 ==> all[|a| + k] == BigEndian32(n)[k];
  }

  /** The parts of a frame, found again by position. */
  lemma FrameParts(id: nat, body: seq<byte>)
    requires id < 128 && 1 + |body| < WORD
    ensures var msg := Frame(id, body);
            |msg| == 5 + |body| && Read32(msg, 0) == 1 + |body| && msg[4] == id as byte && msg[5..] == body
    ensures ParseMsg(Frame(id, body)) == Dispatch(id, 1 + |body|, Frame(id, body))
  {
    hide BigEndian32, Read32, Dispatch;
    ReadShifted([], 1 + |body|, [id as byte] + body);
    assert Frame(id, body) == [] + BigEndian32(1 + |body|) + ([id as byte] + body);
  }

  function BodyOf(m: Msg): seq<byte>
    requires !m.Other? && !m.KeepAlive?
  {
    match m
    case Have(i) => BigEndian32(i)
    case Bitfield(bits) => bits
    case Request(i, b, n) => BigEndian32(i) + BigEndian32(b) + BigEndian32(n)
    case Block(i, b, payload) => BigEndian32(i) + BigEndian32(b) + payload
    case Cancel(i, b, n) => BigEndian32(i) + BigEndian32(b) + BigEndian32(n)
    case _ => []
  }

  /** The prefix tells the length of the frame. */
  lemma FrameLength(m: Msg)
    requires Encodable(m)
    ensures |Encode(m)| >= 4 && |Encode(m)| == 4 + Read32(Encode(m), 0)
  {
    if m.KeepAlive? {
      ReadOfBigEndian(0);
    } else {
      hide BigEndian32, Read32;
      var id := IdOf(m);
      assert Encode(m) == Frame(id, BodyOf(m));
      FrameParts(id, BodyOf(m));
    }
  }

  function IdOf(m: Msg): nat
    requires !m.Other? && !m.KeepAlive?
  {
    match m
    case Choke => CHOKE
    case UnChoke => UNCHOKE
    case Interested => INTERESTED
    case UnInterested => UNINTERESTED
    case Have(_) => HAVE
    case Bitfield(_) => BITFIELD
    case Request(_, _, _) => REQUEST
    case Block(_, _, _) => PIECE
    case Cancel(_, _, _) => CANCEL
  }

  lemma ThreeWords(id: nat, i: nat, b: nat, n: nat)
    requires id < 128
    ensures var msg := Frame(id, BigEndian32(i) + BigEndian32(b) + BigEndian32(n));
            |msg| == 17 && Read32(msg, 5) == i % WORD && Read32(msg, 9) == b % WORD && Read32(msg, 13) == n % WORD
  {
    var head := BigEndian32(13) + [id as byte];
    var msg := Frame(id, BigEndian32(i) + BigEndian32(b) + BigEndian32(n));
    ReadShifted(head, i, BigEndian32(b) + BigEndian32(n));
    assert msg == head + BigEndian32(i) + (BigEndian32(b) + BigEndian32(n));
    ReadShifted(head + BigEndian32(i), b, BigEndian32(n));
    assert msg == (head + BigEndian32(i)) + BigEndian32(b) + BigEndian32(n);
    ReadShifted(head + BigEndian32(i) + BigEndian32(b), n, []);
    assert msg == (head + BigEndian32(i) + BigEndian32(b)) + BigEndian32(n) + [];
  }

  lemma TwoWords(i: nat, b: nat, payload: seq<byte>)
    ensures var msg := Frame(PIECE, BigEndian32(i) + BigEndian32(b) + payload);
            |msg| == 13 + |payload| && Read32(msg, 5) == i % WORD && Read32(msg, 9) == b % WORD && msg[13..] == payload
  {
    var body := BigEndian32(i) + BigEndian32(b) + payload;
    var head := BigEndian32(1 + |body|) + [PIECE as byte];
    var msg := Frame(PIECE, body);
    ReadShifted(head, i, BigEndian32(b) + payload);
    assert msg == head + BigEndian32(i) + (BigEndian32(b) + payload);
    ReadShifted(head + BigEndian32(i), b, payload);
    assert msg == (head + BigEndian32(i)) + BigEndian32(b) + payload;
  }

  lemma ParseUndoesEncode(m: Msg)
    requires Encodable(m)
    ensures ParseMsg(Encode(m)) == Some(m)
  {
    if m.KeepAlive? {
      ReadOfBigEndian(0);
    } else {
      hide BigEndian32, Read32;
      assert Encode(m) == Frame(IdOf(m), BodyOf(m));
      FrameParts(IdOf(m), BodyOf(m));
      DispatchUndoes(m);
    }
  }

  lemma BlockUndone(i: nat, b: nat, payload: seq<byte>)
    requires Encodable(Block(i, b, payload))
    ensures ParseBlock(Frame(PIECE, BodyOf(Block(i, b, payload))), 9 + |payload|) == Some(Block(i, b, payload))
  {
    hide BigEndian32, Read32;
    TwoWords(i, b, payload);
    assert Frame(PIECE, BodyOf(Block(i, b, payload)))[13..|payload| + 13] == payload;
  }

  lemma HaveUndone(i: nat)
    requires Encodable(Have(i))
    ensures ParseHave(Frame(HAVE, BodyOf(Have(i)))) == Some(Have(i))
  {
    hide BigEndian32, Read32;
    var head := BigEndian32(5) + [HAVE as byte];
    ReadShifted(head, i, []);
    assert Frame(HAVE, BodyOf(Have(i))) == head + BigEndian32(i) + [];
  }

  lemma DispatchUndoes(m: Msg)
    requires Encodable(m) && !m.KeepAlive?
    ensures Dispatch(IdOf(m), 1 + |BodyOf(m)|, Frame(IdOf(m), BodyOf(m))) == Some(m)
  {
    hide BigEndian32, Read32, ParseBlock, ParseHave;
    match m
    case Request(i, b, n) => ThreeWords(REQUEST, i, b, n);
    case Cancel(i, b, n) => ThreeWords(CANCEL, i, b, n);
    case Block(i, b, payload) => BlockUndone(i, b, payload);
    case Have(i) => HaveUndone(i);
    case Bitfield(bits) => assert Frame(BITFIELD, bits)[5..|bits| + 5] == bits;
    case _ =>
  }

  /** A request arrives as it was sent if and only if its fields fit 32 bits. */
  lemma RequestSurvivesIff(i: nat, b: nat, n: nat)
    ensures MarshalRequest(i, b, n).Some?
    ensures ParseMsg(MarshalRequest(i, b, n).value) == Some(Request(i, b, n)) <==> Encodable(Request(i, b, n))
  {
    hide BigEndian32, Read32;
    MarshalIsEncode(i, b, n);
    ThreeWords(REQUEST, i, b, n);
    FrameParts(REQUEST, BodyOf(Request(i, b, n)));
  }

  predicate WholeFrame(f: seq<byte>) {
    |f| >= 5 && |f| == 4 + Read32(f, 0)
  }

  /** Ids from 128 on read as 0: an octet that leaves a varint unfinished is taken for choke. */
  lemma ChokeIff(f: seq<byte>)
    requires WholeFrame(f)
    ensures ParseMsg(f) == Some(Choke) <==> f[4] == 0 || f[4] >= 128
  {
    hide Read32, ParseBitfield, ParseRequest, ParseBlock, ParseHave, ParseCancel;
    var id, length := MessageId(f[4]), |f| - 4;
    assert ParseMsg(f) == Dispatch(id, length, f);
    OnlyIdZeroIsChoke(id, length, f);
  }

  lemma OnlyIdZeroIsChoke(id: nat, length: nat, f: seq<byte>)
    ensures Dispatch(id, length, f) == Some(Choke) <==> id == CHOKE
  {
    hide Read32;
  }

  // ---------------------------------------------------------------- the stream

  /** What the framing loop makes of a stream: the messages before the input runs out or a frame panics. */
  datatype Stream = Stream(msgs: seq<Msg>, panicked: bool)

  predicate HasFrame(stream: seq<byte>) {
    |stream| >= 4 && |stream| >= 4 + Read32(stream, 0)
  }

  function Frames(stream: seq<byte>): Stream
    decreases |stream|
  {
    if !HasFrame(stream) then Stream([], false)
    else
      var end := 4 + Read32(stream, 0);
      match ParseMsg(stream[..end])
      case None => Stream([], true)
      case Some(m) => var rest := Frames(stream[end..]); Stream([m] + rest.msgs, rest.panicked)
  }

  /** The loop of HandleMsgStream: read a length, read as many bytes, parse; ends when a read comes up short. */
  method HandleMsgStream(stream: seq<byte>) returns (msgs: seq<Msg>, panicked: bool)
    ensures Stream(msgs, panicked) == Frames(stream)
  {
    msgs, panicked := [], false;
    var rest := stream;
    while |rest| >= 4
      invariant !panicked
      invariant Frames(stream) == Stream(msgs + Frames(rest).msgs, Frames(rest).panicked)
      decreases |rest|
    {
      var msgLenBuffer := rest[..4];
      var msgLen := Read32(msgLenBuffer, 0);
      if |rest| < 4 + msgLen {
        break;
      }
      var incoming := rest[4..4 + msgLen];
      assert msgLenBuffer + incoming == rest[..4 + msgLen];
      var msg := ParseMsg(msgLenBuffer + incoming);
      if msg.None? {
        panicked := true;
        break;
      }
      ghost var later := Frames(rest[4 + msgLen..]).msgs;
      assert msgs + ([msg.value] + later) == (msgs + [msg.value]) + later;
      msgs := msgs + [msg.value];
      rest := rest[4 + msgLen..];
    }
  }

  predicate AllEncodable(ms: seq<Msg>) {
    forall k :: 0 <= k < |ms| ==> Encodable(ms[k])
  }

  function EncodeAll(ms: seq<Msg>): seq<byte>
    requires AllEncodable(ms)
  {
    if ms == [] then [] else assert Encodable(ms[0]); Encode(ms[0]) + EncodeAll(ms[1..])
  }

  lemma HeadOfStream(m: Msg, tail: seq<byte>)
    requires Encodable(m)
    ensures Frames(Encode(m) + tail) == Stream([m] + Frames(tail).msgs, Frames(tail).panicked)
  {
    var stream := Encode(m) + tail;
    FrameLength(m);
    assert forall k :: 0 <= k < 4 ==> stream[k] == Encode(m)[k];
    assert Read32(stream, 0) == Read32(Encode(m), 0);
    assert stream[..|Encode(m)|] == Encode(m) && stream[|Encode(m)|..] == tail;
    ParseUndoesEncode(m);
  }

  /** Messages sent one after the other come out one after the other, whatever follows them. */
  lemma {:induction false} StreamOfMessages(ms: seq<Msg>, tail: seq<byte>)
    requires AllEncodable(ms)
    ensures Frames(EncodeAll(ms) + tail) == Stream(ms + Frames(tail).msgs, Frames(tail).panicked)
    decreases |ms|
  {
    if ms == [] {
      assert [] + tail == tail && [] + Frames(tail).msgs == Frames(tail).msgs;
    } else {
      var first, later := ms[0], EncodeAll(ms[1..]);
      assert Encodable(first) && AllEncodable(ms[1..]);
      StreamOfMessages(ms[1..], tail);
      HeadOfStream(first, later + tail);
      StreamJoin(Encode(first), later, tail, first, ms[1..]);
      assert [first] + ms[1..] == ms;
    }
  }

  lemma StreamJoin(a: seq<byte>, b: seq<byte>, tail: seq<byte>, m: Msg, ms: seq<Msg>)
    ensures (a + b) + tail == a + (b + tail)
    ensures [m] + (ms + Frames(tail).msgs) == ([m] + ms) + Frames(tail).msgs
  {}

  /** A frame cut off anywhere yields nothing yet; so a stream cut anywhere yields its whole messages. */
  lemma CutStream(ms: seq<Msg>, m: Msg, cut: nat)
    requires AllEncodable(ms)
    requires Encodable(m) && cut < |Encode(m)|
    ensures Frames(EncodeAll(ms) + Encode(m)[..cut]) == Stream(ms, false)
  {
    var tail := Encode(m)[..cut];
    FrameLength(m);
    if cut >= 4 {
      assert forall k :: 0 <= k < 4 ==> tail[k] == Encode(m)[k];
      assert Read32(tail, 0) == Read32(Encode(m), 0);
    }
    StreamOfMessages(ms, tail);
    assert ms + [] == ms;
  }

  // ---------------------------------------------------------------- handshake

  const HANDSHAKE_ID: byte := 19
  const HANDSHAKE_LEN: nat := 68
  const IDENTIFIER: seq<byte> :=
    [66, 105, 116, 84, 111, 114, 114, 101, 110, 116, 32, 112, 114, 111, 116, 111, 99, 111, 108]

  datatype HandShake = HandShake(
    pstrlen: byte,
    pstr: seq<byte>,
    reserved: seq<byte>,
    infoHash: seq<byte>,
    peerID: seq<byte>)

  function MarshalHandShake(infoHash: seq<byte>, peerID: seq<byte>): seq<byte> {
    [HANDSHAKE_ID] + IDENTIFIER + Zeros(8) + infoHash + peerID
  }

  /** None is the error of a handshake that is too short; anything after 68 octets is ignored. */
  function ParseHandShake(data: seq<byte>): Option<HandShake> {
    if |data| < HANDSHAKE_LEN then None
    else Some(HandShake(data[0], data[1..20], data[20..28], data[28..48], data[48..68]))
  }

  /** A handshake is read back as it was written if and only if both identifiers have 20 octets. */
  lemma HandShakeSurvivesIff(infoHash: seq<byte>, peerID: seq<byte>)
    ensures ParseHandShake(MarshalHandShake(infoHash, peerID))
            == Some(HandShake(HANDSHAKE_ID, IDENTIFIER, Zeros(8), infoHash, peerID))
            <==> |infoHash| == 20 && |peerID| == 20
  {
    var data := MarshalHandShake(infoHash, peerID);
    assert |IDENTIFIER| == 19 && |data| == 28 + |infoHash| + |peerID|;
    if |infoHash| == 20 && |peerID| == 20 {
      assert data[1..20] == IDENTIFIER;
      assert data[20..28] == Zeros(8);
      assert data[28..48] == infoHash;
      assert data[48..68] == peerID;
    }
  }
}
