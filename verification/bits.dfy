/** Bits of an octet, as utils sets and tests them; 2^pos is exact for the positions 0..7 in use. */
module Bits {

  function Power(pos: nat): bv8
    requires pos < 8
  {
    1 << pos
  }

  predicate IsBitOn(b: bv8, pos: nat)
    requires pos < 8
  {
    b & Power(pos) != 0
  }

  /** Position 0 is the least significant bit. */
  lemma BitIsMask(b: bv8, q: nat)
    requires q < 8
    ensures IsBitOn(b, q) <==> b & [1, 2, 4, 8, 16, 32, 64, 128][q] != 0
  {
    assert q in {0, 1, 2, 3, 4, 5, 6, 7};
  }

  lemma MasksFromLeft(k: nat, left: seq<bv8>, right: seq<bv8>)
    requires k < 8 && left == [128, 64, 32, 16, 8, 4, 2, 1] && right == [1, 2, 4, 8, 16, 32, 64, 128]
    ensures left[k] == right[7 - k]
  {
    assert k in {0, 1, 2, 3, 4, 5, 6, 7};
  }

  lemma BitFromLeft(b: bv8, k: nat)
    requires k < 8
    ensures IsBitOn(b, 7 - k) <==> b & [128, 64, 32, 16, 8, 4, 2, 1][k] != 0
  {
    hide *;
    BitIsMask(b, 7 - k);
    MasksFromLeft(k, [128, 64, 32, 16, 8, 4, 2, 1], [1, 2, 4, 8, 16, 32, 64, 128]);
  }

  /** uint8(255) &^ b */
  function FlipBit(b: bv8): bv8 {
    255 & !b
  }

  lemma OrSetsOneBit(b: bv8, p: nat, q: nat)
    requires p < 8 && q < 8
    ensures IsBitOn(b | Power(p), q) <==> p == q || IsBitOn(b, q)
  {
    assert p in {0, 1, 2, 3, 4, 5, 6, 7} && q in {0, 1, 2, 3, 4, 5, 6, 7};
  }

  lemma PowersApart(p: nat, q: nat)
    requires p < 8 && q < 8 && p != q
    ensures Power(p) & Power(q) == 0
  {
    assert p in {0, 1, 2, 3, 4, 5, 6, 7} && q in {0, 1, 2, 3, 4, 5, 6, 7};
  }

  lemma MaskedOut(b: bv8, x: bv8, y: bv8)
    ensures (b & FlipBit(x)) & x == 0
    ensures x & y == 0 ==> (b & FlipBit(x)) & y == b & y
  {}

  lemma AndClearsOneBit(b: bv8, p: nat, q: nat)
    requires p < 8 && q < 8
    ensures IsBitOn(b & FlipBit(Power(p)), q) <==> p != q && IsBitOn(b, q)
  {
    MaskedOut(b, Power(p), Power(q));
    if p != q {
      PowersApart(p, q);
    }
  }

  /** The octets BitMask makes with one bit listed. */
  lemma OneBitOn(b: bv8, r: bv8, k: nat)
    requires k < 8 && forall q: nat :: q < 8 ==> (IsBitOn(r, q) <==> IsBitOn(b, q) || q == 7 - k)
    ensures r == b | [128, 64, 32, 16, 8, 4, 2, 1][k]
  {
    var s := b | [128, 64, 32, 16, 8, 4, 2, 1][k];
    assert [128, 64, 32, 16, 8, 4, 2, 1][k] == Power(7 - k) by {
      assert k in {0, 1, 2, 3, 4, 5, 6, 7};
    }
    forall q: nat | q < 8
      ensures IsBitOn(s, q) <==> IsBitOn(r, q)
    {
      OrSetsOneBit(b, 7 - k, q);
    }
    SameBits(r, s);
  }

  lemma SameBits(a: bv8, b: bv8)
    requires forall q: nat :: q < 8 ==> (IsBitOn(a, q) <==> IsBitOn(b, q))
    ensures a == b
  {
    forall q: nat | q < 8
      ensures a & [1, 2, 4, 8, 16, 32, 64, 128][q] != 0 <==> b & [1, 2, 4, 8, 16, 32, 64, 128][q] != 0
    {
      BitIsMask(a, q);
      BitIsMask(b, q);
      assert IsBitOn(a, q) <==> IsBitOn(b, q);
    }
    EightMasks(a, b);
  }

  lemma EightMasks(a: bv8, b: bv8)
    requires forall q: nat :: q < 8 ==>
               (a & [1, 2, 4, 8, 16, 32, 64, 128][q] != 0 <==> b & [1, 2, 4, 8, 16, 32, 64, 128][q] != 0)
    ensures a == b
  {
    var m: seq<bv8> := [1, 2, 4, 8, 16, 32, 64, 128];
    assert (a & m[0] != 0 <==> b & m[0] != 0) && (a & m[1] != 0 <==> b & m[1] != 0);
    assert (a & m[2] != 0 <==> b & m[2] != 0) && (a & m[3] != 0 <==> b & m[3] != 0);
    assert (a & m[4] != 0 <==> b & m[4] != 0) && (a & m[5] != 0 <==> b & m[5] != 0);
    assert (a & m[6] != 0 <==> b & m[6] != 0) && (a & m[7] != 0 <==> b & m[7] != 0);
  }

  /** Turns the listed bits on (action 1) or off (action 0); any other action leaves the octet alone. */
  method BitMask(b: bv8, action: int, bits: seq<nat>) returns (r: bv8)
    requires forall k :: 0 <= k < |bits| ==> bits[k] < 8
    ensures action == 1 ==> forall q: nat :: q < 8 ==> (IsBitOn(r, q) <==> IsBitOn(b, q) || q in bits)
    ensures action == 0 ==> forall q: nat :: q < 8 ==> (IsBitOn(r, q) <==> IsBitOn(b, q) && q !in bits)
    ensures action != 0 && action != 1 ==> r == b
  {
    hide IsBitOn, Power, FlipBit;
    r := b;
    if action == 1 {
      for k := 0 to |bits|
        invariant forall q: nat :: q < 8 ==> (IsBitOn(r, q) <==> IsBitOn(b, q) || q in bits[..k])
      {
        forall q: nat | q < 8
          ensures IsBitOn(r | Power(bits[k]), q) <==> bits[k] == q || IsBitOn(r, q)
        {
          OrSetsOneBit(r, bits[k], q);
        }
        assert bits[..k + 1] == bits[..k] + [bits[k]];
        r := r | Power(bits[k]);
      }
    } else if action == 0 {
      for k := 0 to |bits|
        invariant forall q: nat :: q < 8 ==> (IsBitOn(r, q) <==> IsBitOn(b, q) && q !in bits[..k])
      {
        forall q: nat | q < 8
          ensures IsBitOn(r & FlipBit(Power(bits[k])), q) <==> bits[k] != q && IsBitOn(r, q)
        {
          AndClearsOneBit(r, bits[k], q);
        }
        assert bits[..k + 1] == bits[..k] + [bits[k]];
        r := r & FlipBit(Power(bits[k]));
      }
    }
  }

  // ---------------------------------------------------------------- bit fields

  /** Bit k of a field, most significant bit first. */
  predicate FieldHas(field: seq<bv8>, k: nat)
    ensures FieldHas(field, k)
            <==> k / 8 < |field| && field[k / 8] & [128, 64, 32, 16, 8, 4, 2, 1][k % 8] != 0
  {
    && k / 8 < |field|
    && (BitFromLeft(field[k / 8], k % 8);
        IsBitOn(field[k / 8], 7 - k % 8))
  }

  ghost predicate Marked(before: seq<bv8>, after: seq<bv8>, k: nat) {
    |after| == |before| && forall j: nat :: FieldHas(after, j) <==> FieldHas(before, j) || (j == k && k / 8 < |before|)
  }

  /** Setting bit 7 - k%8 of octet k/8 changes bit k of the field and no other. */
  lemma MarkBit(before: seq<bv8>, k: nat, octet: bv8)
    requires k / 8 < |before|
    requires forall q: nat :: q < 8 ==> (IsBitOn(octet, q) <==> IsBitOn(before[k / 8], q) || q == 7 - k % 8)
    ensures Marked(before, before[k / 8 := octet], k)
  {
    var after := before[k / 8 := octet];
    forall j: nat
      ensures FieldHas(after, j) <==> FieldHas(before, j) || (j == k && k / 8 < |before|)
    {
      if j / 8 == k / 8 {
        assert j == k <==> 7 - j % 8 == 7 - k % 8;
      }
    }
  }
}
