/** A peer's choke flag, bit field and slot counter. */
module Peers {
  import opened Bits
  import Protocol

  class Peer {
    var isChoking: bool
    var isFree: int
    var bitfield: seq<bv8>

    constructor ()
      ensures isChoking && isFree == 0 && bitfield == []
    {
      isChoking := true;
      isFree := 0;
      bitfield := [];
    }

    predicate HasPiece(pieceIndex: nat)
      reads this`bitfield
      ensures HasPiece(pieceIndex)
              <==> pieceIndex / 8 < |bitfield|
                   && bitfield[pieceIndex / 8] & [128, 64, 32, 16, 8, 4, 2, 1][pieceIndex % 8] != 0
    {
      && pieceIndex / 8 < |bitfield|
      && (BitFromLeft(bitfield[pieceIndex / 8], pieceIndex % 8);
          IsBitOn(bitfield[pieceIndex / 8], 7 - pieceIndex % 8))
    }

    predicate IsAvailable(pieceIndex: nat)
      reads this
      ensures IsAvailable(pieceIndex) <==> !isChoking && HasPiece(pieceIndex) && isFree != 3
    {
      !(isChoking || !HasPiece(pieceIndex) || isFree == Protocol.MAX_PIECE_PER_PEER)
    }

    /** The bit position is taken from the octet's index, not from the piece's. */
    method UpdateBitfield(pieceIndex: nat)
      modifies this`bitfield
      ensures var k := pieceIndex / 8;
              bitfield == if k >= |old(bitfield)| then old(bitfield)
                          else old(bitfield)[k := old(bitfield)[k] | [128, 64, 32, 16, 8, 4, 2, 1][k % 8]]
      ensures Marked(old(bitfield), bitfield, HaveBit(pieceIndex))
      ensures HasPiece(pieceIndex)
              <==> old(HasPiece(pieceIndex)) || (pieceIndex / 8 < |bitfield| && pieceIndex % 8 == pieceIndex / 8 % 8)
    {
      var byteIndex := pieceIndex / 8;
      var bitIndex := 7 - byteIndex % 8;
      if |bitfield| <= byteIndex {
        return;
      }
      var octet := BitMask(bitfield[byteIndex], 1, [bitIndex]);
      MarkBit(bitfield, HaveBit(pieceIndex), octet);
      OneBitOn(bitfield[byteIndex], octet, byteIndex % 8);
      HaveMarksIff(bitfield, bitfield[byteIndex := octet], pieceIndex);
      bitfield := bitfield[byteIndex := octet];
    }
  }

  /** The bit that a have message for this piece turns on. */
  function HaveBit(pieceIndex: nat): nat {
    8 * (pieceIndex / 8) + pieceIndex / 8 % 8
  }

  predicate Aligned(pieceIndex: nat) {
    pieceIndex % 8 == pieceIndex / 8 % 8
  }

  /** After a have message the peer is seen to have the piece if and only if it was before, or the piece's
      bit happens to be the one the code turns on. */
  lemma HaveMarksIff(before: seq<bv8>, after: seq<bv8>, pieceIndex: nat)
    requires Marked(before, after, HaveBit(pieceIndex))
    ensures FieldHas(after, pieceIndex)
            <==> FieldHas(before, pieceIndex) || (pieceIndex / 8 < |before| && Aligned(pieceIndex))
  {
    assert HaveBit(pieceIndex) == pieceIndex <==> Aligned(pieceIndex);
    assert HaveBit(pieceIndex) / 8 == pieceIndex / 8;
  }

  /** The protocol's test of a peer is isAvailable, for peers whose flags and fields give the offers. */
  lemma AvailableIsProtocols(peer: Peer, p: nat, c: Protocol.Config, s: Protocol.State, pieceIndex: nat)
    requires p in s.isFree && s.isFree[p] == peer.isFree
    requires (p, pieceIndex) in c.offers <==> !peer.isChoking && peer.HasPiece(pieceIndex)
    ensures peer.IsAvailable(pieceIndex) <==> Protocol.Available(c, s, p, pieceIndex)
  {}
}
