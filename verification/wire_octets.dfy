/** The wire format octet by octet: lengths, message ids and fields as BEP 3, section "peer messages", and its
    handshake have them. */
module WireOctets {
  import opened Common
  import opened Wire

  // ---------------------------------------------------------------- integers

  lemma WordAt(f: seq<byte>, at: nat)
    requires at + 4 <= |f|
    ensures Read32(f, at)
            == f[at] as int * 16777216 + f[at + 1] as int * 65536 + f[at + 2] as int * 256 + f[at + 3] as int
  {}

  /** Four octets written from n are worth n modulo 2^32, the first octet weighing most. */
  lemma FourOctetsWeigh(n: nat)
    ensures var b := BigEndian32(n);
            b[0] as int * 16777216 + b[1] as int * 65536 + b[2] as int * 256 + b[3] as int == n % 4294967296
  {
    ReadOfBigEndian(n);
    WordAt(BigEndian32(n), 0);
  }

  /** What utils.IntToByte writes for each width: one octet below 128, two, four or eight octets big-endian with
      zeros behind them, nothing but zeros beyond. */
  lemma IntToByteOctets(n: nat, nByte: nat)
    ensures IntToByte(n, nByte).Some? <==> nByte >= 2 || (nByte == 1 && n < 128)
    ensures nByte == 1 && n < 128 ==> IntToByte(n, nByte) == Some([n as byte])
    ensures nByte >= 2 ==>
              var b := IntToByte(n, nByte).value;
              && |b| == nByte
              && (nByte < 4 ==> b[0] as int * 256 + b[1] as int == n % 65536)
              && (4 <= nByte < 8 ==>
                    b[0] as int * 16777216 + b[1] as int * 65536 + b[2] as int * 256 + b[3] as int == n % 4294967296)
              && (nByte == 8 ==>
                    && b[0] as int * 16777216 + b[1] as int * 65536 + b[2] as int * 256 + b[3] as int
                       == n / 4294967296 % 4294967296
                    && b[4] as int * 16777216 + b[5] as int * 65536 + b[6] as int * 256 + b[7] as int == n % 4294967296)
              && forall k ::
                   (if nByte < 4 then 2 else if nByte < 8 then 4 else if nByte == 8 then 8 else 0) <= k < nByte ==>
                   b[k] == 0
  {
    FourOctetsWeigh(n);
    FourOctetsWeigh(n / 4294967296);
    TwoOctetsWeigh(n);
    hide BigEndian32;
  }

  lemma TwoOctetsWeigh(n: nat)
    ensures n / 256 % 256 * 256 + n % 256 == n % 65536
  {
    assert n / 65536 == n / 256 / 256;
  }

  // ---------------------------------------------------------------- what a frame is read as

  /** A whole frame is told by its fifth octet: 0 choke, 1 unchoke, 2 interested, 3 not interested, 4 have,
      5 bitfield, 6 request, 7 piece, 8 cancel. One that is too short for its kind panics. */
  lemma FrameIsReadAs(f: seq<byte>)
    requires |f| >= 5
    requires |f| - 4 == f[0] as int * 16777216 + f[1] as int * 65536 + f[2] as int * 256 + f[3] as int
    ensures f[4] == 0 || f[4] >= 128 ==> ParseMsg(f) == Some(Choke)
    ensures f[4] == 1 ==> ParseMsg(f) == Some(UnChoke)
    ensures f[4] == 2 ==> ParseMsg(f) == Some(Interested)
    ensures f[4] == 3 ==> ParseMsg(f) == Some(UnInterested)
    ensures f[4] == 4 ==>
              ParseMsg(f) == if |f| < 9 then None else Some(Have(
                f[5] as int * 16777216 + f[6] as int * 65536 + f[7] as int * 256 + f[8] as int))
    ensures f[4] == 5 ==> ParseMsg(f) == Some(Bitfield(f[5..]))
    ensures f[4] == 6 ==>
              ParseMsg(f) == if |f| < 17 then None else Some(Request(
                f[5] as int * 16777216 + f[6] as int * 65536 + f[7] as int * 256 + f[8] as int,
                f[9] as int * 16777216 + f[10] as int * 65536 + f[11] as int * 256 + f[12] as int,
                f[13] as int * 16777216 + f[14] as int * 65536 + f[15] as int * 256 + f[16] as int))
    ensures f[4] == 7 ==>
              ParseMsg(f) == if |f| < 13 then None else Some(Block(
                f[5] as int * 16777216 + f[6] as int * 65536 + f[7] as int * 256 + f[8] as int,
                f[9] as int * 16777216 + f[10] as int * 65536 + f[11] as int * 256 + f[12] as int, f[13..]))
    ensures f[4] == 8 ==>
              ParseMsg(f) == if |f| < 17 then None else Some(Cancel(
                f[5] as int * 16777216 + f[6] as int * 65536 + f[7] as int * 256 + f[8] as int,
                f[9] as int * 16777216 + f[10] as int * 65536 + f[11] as int * 256 + f[12] as int,
                f[13] as int * 16777216 + f[14] as int * 65536 + f[15] as int * 256 + f[16] as int))
    ensures 9 <= f[4] < 128 ==> ParseMsg(f) == Some(Other(f[4] as nat, |f| - 4))
  {
    hide Read32;
    WordAt(f, 0);
    if |f| >= 9 {
      WordAt(f, 5);
    }
    if |f| >= 13 {
      WordAt(f, 9);
    }
    if |f| >= 17 {
      WordAt(f, 13);
    }
    assert f[5..|f|] == f[5..] && (|f| >= 13 ==> f[13..|f|] == f[13..]);
  }

  /** Which messages fit their frames: every field below 2^32, and the length of what follows it as well. */
  lemma EncodableIff(i: nat, b: nat, n: nat, octets: seq<byte>)
    ensures Encodable(KeepAlive) && Encodable(Choke) && Encodable(UnChoke)
    ensures Encodable(Interested) && Encodable(UnInterested)
    ensures Encodable(Have(i)) <==> i <= 4294967295
    ensures Encodable(Bitfield(octets)) <==> |octets| <= 4294967294
    ensures Encodable(Request(i, b, n)) <==> i <= 4294967295 && b <= 4294967295 && n <= 4294967295
    ensures Encodable(Cancel(i, b, n)) <==> i <= 4294967295 && b <= 4294967295 && n <= 4294967295
    ensures Encodable(Block(i, b, octets)) <==> i <= 4294967295 && b <= 4294967295 && |octets| <= 4294967286
  {}

  /** A frame is whole if its length says so. */
  lemma WholeFrameIff(f: seq<byte>)
    ensures WholeFrame(f)
            <==> |f| >= 5
                 && |f| - 4 == f[0] as int * 16777216 + f[1] as int * 65536 + f[2] as int * 256 + f[3] as int
  {
    if |f| >= 5 {
      WordAt(f, 0);
    }
  }

  lemma KeepAliveIff(f: seq<byte>)
    requires |f| >= 4
    ensures ParseMsg(f) == Some(KeepAlive) <==> f[..4] == [0, 0, 0, 0]
  {
    WordAt(f, 0);
    assert f[..4] == [f[0], f[1], f[2], f[3]];
    if |f| >= 5 {
      NeverKeepAlive(MessageId(f[4]), Read32(f, 0), f);
    }
  }

  lemma NeverKeepAlive(id: nat, length: nat, f: seq<byte>)
    ensures Dispatch(id, length, f) != Some(KeepAlive)
  {
    hide Read32;
  }

  // ---------------------------------------------------------------- what is sent

  /** The octets of a request as it is sent: length 13, id 6, and three fields of four octets. */
  lemma RequestOctets(i: nat, b: nat, n: nat)
    ensures MarshalRequest(i, b, n).Some? && |MarshalRequest(i, b, n).value| == 17
    ensures var f := MarshalRequest(i, b, n).value;
            && f[..5] == [0, 0, 0, 13, 6]
            && f[5] as int * 16777216 + f[6] as int * 65536 + f[7] as int * 256 + f[8] as int == i % 4294967296
            && f[9] as int * 16777216 + f[10] as int * 65536 + f[11] as int * 256 + f[12] as int == b % 4294967296
            && f[13] as int * 16777216 + f[14] as int * 65536 + f[15] as int * 256 + f[16] as int == n % 4294967296
  {
    MarshalIsEncode(i, b, n);
    HeadOctets(6, BigEndian32(i) + BigEndian32(b) + BigEndian32(n), 0, 13);
    ThreeWords(REQUEST, i, b, n);
    hide BigEndian32, Read32;
    var f := Frame(REQUEST, BigEndian32(i) + BigEndian32(b) + BigEndian32(n));
    WordAt(f, 5);
    WordAt(f, 9);
    WordAt(f, 13);
  }

  lemma InterestedOctets()
    ensures MarshalInterested() == Some([0, 0, 0, 1, 2])
  {
    MarshalIsEncode(0, 0, 0);
    HeadOctets(2, [], 0, 1);
    assert Frame(INTERESTED, []) == Frame(INTERESTED, [])[..5];
  }

  /** The length and the id of a frame whose length fits two octets. */
  lemma HeadOctets(id: nat, body: seq<byte>, high: byte, low: byte)
    requires id < 128 && 1 + |body| == high as nat * 256 + low as nat
    ensures Frame(id, body)[..5] == [0, 0, high, low, id as byte]
  {
    assert BigEndian32(1 + |body|) == [0, 0, high, low];
  }

  /** The frames a peer sends, as the standard has them; lengths of bit fields and blocks by their weight. */
  lemma FrameOctets(i: nat, b: nat, n: nat)
    ensures Encode(KeepAlive) == [0, 0, 0, 0]
    ensures Encode(Choke) == [0, 0, 0, 1, 0] && Encode(UnChoke) == [0, 0, 0, 1, 1]
    ensures Encode(Interested) == [0, 0, 0, 1, 2] && Encode(UnInterested) == [0, 0, 0, 1, 3]
    ensures |Encode(Have(i))| == 9 && Encode(Have(i))[..5] == [0, 0, 0, 5, 4]
    ensures |Encode(Request(i, b, n))| == 17 && Encode(Request(i, b, n))[..5] == [0, 0, 0, 13, 6]
    ensures |Encode(Cancel(i, b, n))| == 17 && Encode(Cancel(i, b, n))[..5] == [0, 0, 0, 13, 8]
  {
    HeadOctets(4, BigEndian32(i), 0, 5);
    HeadOctets(6, BigEndian32(i) + BigEndian32(b) + BigEndian32(n), 0, 13);
    HeadOctets(8, BigEndian32(i) + BigEndian32(b) + BigEndian32(n), 0, 13);
    EmptyFrames();
  }

  lemma EmptyFrames()
    ensures Encode(KeepAlive) == [0, 0, 0, 0]
    ensures Encode(Choke) == [0, 0, 0, 1, 0] && Encode(UnChoke) == [0, 0, 0, 1, 1]
    ensures Encode(Interested) == [0, 0, 0, 1, 2] && Encode(UnInterested) == [0, 0, 0, 1, 3]
  {
    HeadOctets(0, [], 0, 1);
    HeadOctets(1, [], 0, 1);
    HeadOctets(2, [], 0, 1);
    HeadOctets(3, [], 0, 1);
    assert forall id: nat :: id < 4 ==> Frame(id, []) == Frame(id, [])[..5];
  }

  lemma LongFrameOctets(bits: seq<byte>, i: nat, b: nat, payload: seq<byte>)
    requires 1 + |bits| < 4294967296 && 9 + |payload| < 4294967296
    ensures var f := Encode(Bitfield(bits));
            && |f| == 5 + |bits| && f[4] == 5 && f[5..] == bits
            && f[0] as int * 16777216 + f[1] as int * 65536 + f[2] as int * 256 + f[3] as int == 1 + |bits|
    ensures var f := Encode(Block(i, b, payload));
            && |f| == 13 + |payload| && f[4] == 7 && f[13..] == payload
            && f[0] as int * 16777216 + f[1] as int * 65536 + f[2] as int * 256 + f[3] as int == 9 + |payload|
            && f[5] as int * 16777216 + f[6] as int * 65536 + f[7] as int * 256 + f[8] as int == i % 4294967296
            && f[9] as int * 16777216 + f[10] as int * 65536 + f[11] as int * 256 + f[12] as int == b % 4294967296
  {
    hide BigEndian32, Read32;
    FrameParts(BITFIELD, bits);
    FrameParts(PIECE, BigEndian32(i) + BigEndian32(b) + payload);
    TwoWords(i, b, payload);
    WordAt(Encode(Bitfield(bits)), 0);
    var f := Encode(Block(i, b, payload));
    WordAt(f, 0);
    WordAt(f, 5);
    WordAt(f, 9);
  }

  // ---------------------------------------------------------------- handshake

  /** The handshake as it is sent: the octet 19, the text "BitTorrent protocol", eight zeros, the info hash and
      the peer id. */
  lemma HandShakeOctets(infoHash: seq<byte>, peerID: seq<byte>)
    ensures var f := MarshalHandShake(infoHash, peerID);
            && |f| == 28 + |infoHash| + |peerID| && f[0] == 19
            && (forall k :: 0 <= k < 19 ==> f[1 + k] as int as char == "BitTorrent protocol"[k])
            && (forall k :: 20 <= k < 28 ==> f[k] == 0)
            && f[28..28 + |infoHash|] == infoHash && f[28 + |infoHash|..] == peerID
  {
    var f := MarshalHandShake(infoHash, peerID);
    assert |IDENTIFIER| == 19;
    assert forall k :: 0 <= k < 19 ==> f[1 + k] == IDENTIFIER[k];
    assert f[28..28 + |infoHash|] == infoHash;
    assert f[28 + |infoHash|..] == peerID;
  }

  /** A handshake is taken if and only if it has 68 octets, and then by position. */
  lemma HandShakeReadAs(data: seq<byte>)
    ensures ParseHandShake(data).Some? <==> |data| >= 68
    ensures |data| >= 68 ==>
              ParseHandShake(data).value.infoHash == data[28..48] && ParseHandShake(data).value.peerID == data[48..68]
  {}
}
