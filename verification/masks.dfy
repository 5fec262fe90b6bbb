/** The nibble-interleaved layout of the tie and rest masks: a 16-bit mask
    travels as four bytes that each carry one nibble, in the order
    bits 4-7, bits 0-3, bits 12-15, bits 8-11. */
module Masks {
  import opened Base

  /** The value `four_u8_to_u16!` adds up in `u16`: the first byte shifted by
      4, the second as is, the third shifted by 12 (its high nibble falls off
      the top) and the fourth shifted by 8. */
  function PackedSum(msg: seq<u8>, start: nat): nat
    requires start + 4 <= |msg|
  {
    var b0, b1, b2, b3 := msg[start] as int, msg[start + 1] as int, msg[start + 2] as int, msg[start + 3] as int;
    b0 * 0x10 + b1 + (b2 * 0x1000) % 0x1_0000 + b3 * 0x100
  }

  /** The additions of `four_u8_to_u16!` stay within `u16`. */
  predicate PackFits(msg: seq<u8>, start: nat)
    requires start + 4 <= |msg|
  {
    PackedSum(msg, start) < 0x1_0000
  }

  /** All four bytes of a mask group are nibbles, as the encoder writes them. */
  predicate NibbleGroup(msg: seq<u8>, start: nat)
    requires start + 4 <= |msg|
  {
    forall i :: start <= i < start + 4 ==> msg[i] < 16
  }

  /** `four_u8_to_u16!(msg, start)` */
  function FourU8ToU16(msg: seq<u8>, start: nat): (v: u16)
    requires start + 4 <= |msg| && PackFits(msg, start)
    ensures NibbleGroup(msg, start) ==>
      v % 16 == msg[start + 1] && (v / 16) % 16 == msg[start]
      && (v / 0x100) % 16 == msg[start + 3] && v / 0x1000 == msg[start + 2]
  {
    if NibbleGroup(msg, start) then
      NibblesCompose(msg[start], msg[start + 1], msg[start + 2], msg[start + 3]);
      PackedSum(msg, start)
    else
      PackedSum(msg, start)
  }

  lemma NibblesCompose(b0: int, b1: int, b2: int, b3: int)
    requires 0 <= b0 < 16 && 0 <= b1 < 16 && 0 <= b2 < 16 && 0 <= b3 < 16
    ensures (b2 * 0x1000) % 0x1_0000 == b2 * 0x1000
    ensures var v := b0 * 0x10 + b1 + b2 * 0x1000 + b3 * 0x100;
      v % 16 == b1 && (v / 16) % 16 == b0 && (v / 0x100) % 16 == b3 && v / 0x1000 == b2
  {
    var v := b0 * 0x10 + b1 + b2 * 0x1000 + b3 * 0x100;
    var q1 := b0 + 16 * b3 + 0x100 * b2;
    assert v == 16 * q1 + b1;
    assert v / 16 == q1;
    var q2 := b3 + 16 * b2;
    assert v == 0x100 * q2 + (16 * b0 + b1);
    assert v / 0x100 == q2;
    assert v == 0x1000 * b2 + (0x100 * b3 + 16 * b0 + b1);
    assert v / 0x1000 == b2;
  }

  /** `u16_to_four_u8!(v)`: the inverse split, one nibble per byte. */
  function U16ToFourU8(v: u16): (b: seq<u8>)
    ensures |b| == 4 && NibbleGroup(b, 0)
    ensures PackFits(b, 0) && FourU8ToU16(b, 0) == v
  {
    var b: seq<u8> := [(v / 0x10) % 16, v % 16, (v / 0x1000) % 16, (v / 0x100) % 16];
    NibblesDecompose(v);
    NibblesCompose(b[0], b[1], b[2], b[3]);
    assert PackedSum(b, 0) == v;
    b
  }

  lemma NibblesDecompose(v: u16)
    ensures v / 0x1000 < 16
    ensures v == 0x10 * ((v / 0x10) % 16) + v % 16 + 0x1000 * ((v / 0x1000) % 16) + 0x100 * ((v / 0x100) % 16)
  {
    var q1 := v / 16;
    var q2 := q1 / 16;
    var q3 := q2 / 16;
    assert v == 16 * q1 + v % 16;
    assert q1 == 16 * q2 + q1 % 16;
    assert q2 == 16 * q3 + q2 % 16;
    assert v == 0x100 * q2 + 16 * (q1 % 16) + v % 16;
    assert v / 0x100 == q2;
    assert v == 0x1000 * q3 + 0x100 * (q2 % 16) + 16 * (q1 % 16) + v % 16;
    assert v / 0x1000 == q3;
  }

  /** Packing four nibbles and splitting the result gives the nibbles back. */
  lemma UnpackPack(msg: seq<u8>, start: nat)
    requires start + 4 <= |msg| && NibbleGroup(msg, start)
    ensures PackFits(msg, start)
    ensures U16ToFourU8(FourU8ToU16(msg, start)) == msg[start..start + 4]
  {
  }

  /** The number whose bit `i` is `bits[i]`: what the encoder accumulates
      with `mask + (bit << i)` for `i` in `0..=15`. */
  function MaskOf(bits: seq<nat>): (m: nat)
    requires forall i :: 0 <= i < |bits| ==> bits[i] <= 1
    ensures m < Pow2(|bits|)
    decreases |bits|
  {
    if bits == [] then 0
    else
      var k := |bits| - 1;
      var m := MaskOf(bits[..k]);
      assert bits[k] * Pow2(k) <= Pow2(k);
      m + bits[k] * Pow2(k)
  }

  /** Bit `n` of the mask is `bits[n]`. */
  lemma {:induction false} MaskOfBit(bits: seq<nat>, n: nat)
    requires forall i :: 0 <= i < |bits| ==> bits[i] <= 1
    requires n < |bits|
    ensures Bit(MaskOf(bits), n) == bits[n]
    decreases |bits|
  {
    var k := |bits| - 1;
    var init := bits[..k];
    assert MaskOf(bits) == MaskOf(init) + bits[k] * Pow2(k);
    if n < k {
      BitBelowUnaffected(MaskOf(init), bits[k], k, n);
      MaskOfBit(init, n);
    } else {
      BitAtTop(MaskOf(init), bits[k], k);
    }
  }

  /** One more bit of the accumulation: the encoder's `mask + (bit << i)`. */
  lemma MaskExtend(bits: seq<nat>, i: nat)
    requires forall k :: 0 <= k < |bits| ==> bits[k] <= 1
    requires i < |bits| <= 16
    ensures MaskOf(bits[..i + 1]) == MaskOf(bits[..i]) + bits[i] * Pow2(i)
    ensures MaskOf(bits[..i + 1]) < 0x1_0000
  {
    assert bits[..i + 1][..i] == bits[..i];
    Pow2Monotone(i + 1, 16);
    Pow2Sixteen();
  }
}
