/** The 115-byte pattern payload exchanged with the device and its mapping to
    and from `Pattern` (`sysex_to_pattern`, `pattern_to_sysex`).

    Layout, by offset:
      0..4       0x78, group, pattern number + (A/B << 3), 0, 1
      5..36      per step n, the high nibble (5 + 2n) and the low nibble
                 (6 + 2n) of the composed note
      37..68     per step n, the accent byte at 0x26 + 2n (even offsets 0)
      69..100    per step n, the slide byte at 0x46 + 2n (even offsets 0)
      101, 102   0, triplet
      103, 104   high and low nibble of the active step count
      105, 106   0, 0
      107..110   the tie mask, nibble-interleaved
      111..114   the rest mask, nibble-interleaved */
module BinaryCodec {
  import opened Base
  import opened TimeTable
  import opened PatternModel
  import opened Masks

  const PAYLOAD_LEN: nat := 115
  const TIE_MASK: nat := 0x6B
  const REST_MASK: nat := 0x6F

  // ---------------------------------------------------------------------
  // Decoding

  /** `msg[0x06 + 2n] + (msg[0x05 + 2n] << 4)` before the `u8` addition
      checks for overflow; the shift itself keeps only the low 8 bits. */
  function NoteSum(msg: seq<u8>, n: nat): nat
    requires |msg| >= PAYLOAD_LEN && n < 16
  {
    msg[0x06 + 2 * n] + (msg[0x05 + 2 * n] as int * 16) % 0x100
  }

  /** The note value of step `n`, masked to 7 bits. */
  function RawNote(msg: seq<u8>, n: nat): nat
    requires |msg| >= PAYLOAD_LEN && n < 16
  {
    NoteSum(msg, n) % 0x80
  }

  /** The upper-C flag of step `n`: bit 3 of the high nibble byte, forced to 1
      when the raw note is 0x30. */
  function UpperC(msg: seq<u8>, n: nat): (u: nat)
    requires |msg| >= PAYLOAD_LEN && n < 16
    ensures u <= 1
    ensures RawNote(msg, n) == 0x30 ==> u == 1
    ensures RawNote(msg, n) != 0x30 ==> u == Bit(msg[0x05 + 2 * n], 3)
  {
    if RawNote(msg, n) == 0x30 then 1
    else
      BitThree(msg[0x05 + 2 * n] as nat);
      (msg[0x05 + 2 * n] / 8) % 2
  }

  /** Step `n` decodes without a `u8` overflow in the note sum and without a
      `u8` underflow in `raw / 12 - 1 - upperC`. */
  predicate StepDecodable(msg: seq<u8>, n: nat)
    requires |msg| >= PAYLOAD_LEN && n < 16
  {
    NoteSum(msg, n) < 0x100 && RawNote(msg, n) / 12 >= 1 + UpperC(msg, n)
  }

  /** The active step count `(msg[0x67] << 4) + msg[0x68]` before the `u8`
      addition checks for overflow. */
  function ActiveSum(msg: seq<u8>): nat
    requires |msg| >= PAYLOAD_LEN
  {
    (msg[0x67] as int * 16) % 0x100 + msg[0x68]
  }

  /** What `sysex_to_pattern` needs of its input: every offset it reads
      exists, and none of its `u8`/`u16` sums or differences leaves its type. */
  predicate Decodable(msg: seq<u8>) {
    |msg| >= PAYLOAD_LEN
    && PackFits(msg, TIE_MASK) && PackFits(msg, REST_MASK)
    && ActiveSum(msg) < 0x100
    && forall n :: 0 <= n < 16 ==> StepDecodable(msg, n)
  }

  /** Step `n` of the decoded payload, given the two masks. The note and
      transpose give back the raw note through the encoder's formula
      `12 + note + 12 * transpose`, and the note is at least 12 exactly when
      the upper-C flag is set and always below 24, which together fix both
      values; the time class carries the tie bit and the
      rest bit of position `n`; accent and slide are set exactly by a byte
      equal to 1. */
  function DecodeStep(msg: seq<u8>, tie: u16, rest: u16, n: nat): (s: Step)
    requires Decodable(msg) && n < 16
    ensures s.note < 24
    ensures RawNote(msg, n) == 12 + s.note + 12 * s.transpose
    ensures s.note >= 12 <==> UpperC(msg, n) == 1
    ensures s.accent <==> msg[0x26 + 2 * n] == 1
    ensures s.slide <==> msg[0x46 + 2 * n] == 1
    ensures Bit(Code(s.time), 0) == Bit(tie, n) && Bit(Code(s.time), 1) == Bit(rest, n)
  {
    assert StepDecodable(msg, n);
    var raw := RawNote(msg, n);
    var upperc := UpperC(msg, n);
    TimeFromBits(Bit(tie, n), Bit(rest, n));
    Step(raw % 12 + upperc * 12, raw / 12 - 1 - upperc,
         msg[0x26 + 2 * n] == 1, msg[0x46 + 2 * n] == 1,
         TryFromU16(Bit(tie, n) + 2 * Bit(rest, n)).value)
  }

  /** `sysex_to_pattern`, as a function of the payload. */
  function Decode(msg: seq<u8>): (p: Pattern)
    requires Decodable(msg)
    ensures p.triplet <==> msg[0x66] == 1
    ensures p.active_steps == ActiveSum(msg)
  {
    var tie := FourU8ToU16(msg, TIE_MASK);
    var rest := FourU8ToU16(msg, REST_MASK);
    Pattern(msg[0x66] == 1, ActiveSum(msg),
            seq(16, n requires 0 <= n < 16 => DecodeStep(msg, tie, rest, n)))
  }

  /** A payload the decoder accepts: step 0 has the nibbles 0xA, 0x1 (raw
      note 33 with bit 3 of the high nibble set), every other step 0x0, 0xC
      (raw note 12), and all the rest is zero. */
  function UpperNibblePayload(): (m: seq<u8>)
    ensures |m| == PAYLOAD_LEN
  {
    seq(PAYLOAD_LEN, i requires 0 <= i < PAYLOAD_LEN =>
      if i == 5 then 0xA
      else if i == 6 then 0x1
      else if 5 <= i <= 36 && i % 2 == 0 then 0xC
      else 0)
  }

  /** The bytes of `UpperNibblePayload` that the decoder reads. */
  lemma UpperNibbleBytes()
    ensures var m := UpperNibblePayload();
      && m[0x05] == 0xA && m[0x06] == 0x1
      && (forall n :: 1 <= n < 16 ==> m[0x05 + 2 * n] == 0 && m[0x06 + 2 * n] == 0xC)
      && (forall i :: 0x67 <= i < PAYLOAD_LEN ==> m[i] == 0)
  {
  }

  /** Every step of `UpperNibblePayload` decodes without overflow or
      underflow; step 0 has raw note 33 and the upper-C flag set. */
  lemma UpperNibbleDecodable()
    ensures Decodable(UpperNibblePayload())
    ensures RawNote(UpperNibblePayload(), 0) == 33 && UpperC(UpperNibblePayload(), 0) == 1
  {
    var m := UpperNibblePayload();
    UpperNibbleBytes();
    BitThree(0xA);
    BitThree(0);
    forall n | 0 <= n < 16 ensures StepDecodable(m, n) {
      if n > 0 {
        assert RawNote(m, n) == 12 && UpperC(m, n) == 0;
      }
    }
    assert PackFits(m, TIE_MASK) && PackFits(m, REST_MASK);
  }

  /** The decoder does not keep notes within the text tables: the payload
      above decodes without overflow, yet step 0 gets note 21 (`33 % 12`
      plus 12 for the upper-C bit), so the pattern is not one the text
      renderer can index. */
  lemma DecodeCanLeaveTables()
    ensures Decodable(UpperNibblePayload())
    ensures Decode(UpperNibblePayload()).step[0].note == 21
    ensures !ValidPattern(Decode(UpperNibblePayload()))
  {
    var m := UpperNibblePayload();
    UpperNibbleDecodable();
    var tie := FourU8ToU16(m, TIE_MASK);
    var rest := FourU8ToU16(m, REST_MASK);
    UpperNibbleStepZero(tie, rest);
    var p := Decode(m);
    assert p.step[0] == DecodeStep(m, tie, rest, 0);
    assert !ValidStep(p.step[0]);
  }

  /** Step 0 of `UpperNibblePayload` has note 21, whatever the masks: raw
      note 33 with the upper-C flag leaves `33 - 12 - 12 * transpose` with a
      note of at least 12 and below 24. */
  lemma UpperNibbleStepZero(tie: u16, rest: u16)
    requires Decodable(UpperNibblePayload())
    ensures DecodeStep(UpperNibblePayload(), tie, rest, 0).note == 21
  {
    UpperNibbleDecodable();
  }

  /** `sysex_to_pattern`: fills the sixteen steps in a loop. */
  method SysexToPattern(msg: seq<u8>) returns (p: Pattern)
    requires Decodable(msg)
    ensures p == Decode(msg)
  {
    var tienum := FourU8ToU16(msg, TIE_MASK);
    var restnum := FourU8ToU16(msg, REST_MASK);
    var step: seq<Step> := seq(16, _ => DefaultStep());
    for n := 0 to 16
      invariant |step| == 16
      invariant forall k :: 0 <= k < n ==> step[k] == DecodeStep(msg, tienum, restnum, k)
    {
      var dn := n * 2;
      assert StepDecodable(msg, n);
      var note := (msg[0x06 + dn] + (msg[0x05 + dn] as int * 16) % 0x100) % 0x80;
      var upperc := (msg[0x05 + dn] / 8) % 2;
      if note == 0x30 {
        upperc := 1;
      }
      assert note == RawNote(msg, n) && upperc == UpperC(msg, n);
      TimeFromBits(Bit(tienum, n), Bit(restnum, n));
      var time := TryFromU16(Bit(tienum, n) + 2 * Bit(restnum, n)).value;
      var s := Step(note % 12 + upperc * 12, note / 12 - 1 - upperc,
                    msg[0x26 + dn] == 1, msg[0x46 + dn] == 1, time);
      assert s == DecodeStep(msg, tienum, restnum, n);
      step := step[n := s];
    }
    p := Pattern(msg[0x66] == 1, (msg[0x67] as int * 16) % 0x100 + msg[0x68], step);
  }

  // ---------------------------------------------------------------------
  // Encoding

  /** `pnum + (ab << 3)` stays within `u8`. */
  predicate AddressFits(pnum: u8, ab: u8) {
    pnum + (ab as int * 8) % 0x100 < 0x100
  }

  /** `12 + note + transpose * 12 + hbit`, with the 0x80 flag for an upper C,
      before the `u8` additions check for overflow. */
  function ComposedSum(s: Step): nat {
    12 + s.note + s.transpose * 12 + (if s.note >= 12 then 0x80 else 0)
  }

  /** Every step's composed note stays within `u8`. */
  predicate Encodable(p: Pattern) {
    forall i :: 0 <= i < 16 ==> ComposedSum(p.step[i]) < 0x100
  }

  lemma ValidEncodable(p: Pattern)
    requires ValidPattern(p)
    ensures Encodable(p)
  {
    forall i | 0 <= i < 16 ensures ComposedSum(p.step[i]) < 0x100 {
      assert ValidStep(p.step[i]);
    }
  }

  /** The `note` array of `pattern_to_sysex`: the high and the low nibble of
      each step's composed note. */
  function NoteBlock(p: Pattern): (b: seq<u8>)
    requires Encodable(p)
    ensures |b| == 32
  {
    seq(32, d requires 0 <= d < 32 =>
      if d % 2 == 0 then ComposedSum(p.step[d / 2]) / 16 else ComposedSum(p.step[d / 2]) % 16)
  }

  /** The `accent` and `slide` arrays: the flag of step `n` at `2n + 1`,
      zero between. */
  function FlagBlock(flags: seq<bool>): (b: seq<u8>)
    requires |flags| == 16
    ensures |b| == 32
  {
    seq(32, d requires 0 <= d < 32 => if d % 2 == 1 then FlagValue(flags[d / 2]) else 0)
  }

  function Accents(p: Pattern): seq<bool> {
    seq(16, i requires 0 <= i < 16 => p.step[i].accent)
  }

  function Slides(p: Pattern): seq<bool> {
    seq(16, i requires 0 <= i < 16 => p.step[i].slide)
  }

  /** Bit 0 of each step's time code: its tie bit. */
  function TieBits(p: Pattern): (bits: seq<nat>)
    ensures |bits| == 16 && forall i :: 0 <= i < 16 ==> bits[i] <= 1
  {
    seq(16, i requires 0 <= i < 16 => Bit(Code(p.step[i].time), 0))
  }

  /** Bit 1 of each step's time code: its rest bit. */
  function RestBits(p: Pattern): (bits: seq<nat>)
    ensures |bits| == 16 && forall i :: 0 <= i < 16 ==> bits[i] <= 1
  {
    seq(16, i requires 0 <= i < 16 => Bit(Code(p.step[i].time), 1))
  }

  /** The 16-bit mask the encoder accumulates from sixteen bits: bit `n` of
      it is `bits[n]`. */
  function Mask16(bits: seq<nat>): (m: u16)
    requires |bits| == 16 && forall i :: 0 <= i < 16 ==> bits[i] <= 1
    ensures forall n :: 0 <= n < 16 ==> Bit(m, n) == bits[n]
  {
    Pow2Sixteen();
    var m := MaskOf(bits);
    forall n | 0 <= n < 16 ensures Bit(m, n) == bits[n] {
      MaskOfBit(bits, n);
    }
    m
  }

  /** `pattern_to_sysex`, as a function of its arguments. */
  function Encode(p: Pattern, group: u8, pnum: u8, ab: u8): (r: seq<u8>)
    requires Encodable(p) && AddressFits(pnum, ab)
    ensures |r| == PAYLOAD_LEN
  {
    var addr: u8 := pnum + (ab as int * 8) % 0x100;
    var high: u8, low: u8 := p.active_steps / 16, p.active_steps % 16;
    [0x78] + [group, addr] + [0, 1] + NoteBlock(p) + FlagBlock(Accents(p)) + FlagBlock(Slides(p))
    + [0, FlagValue(p.triplet)] + [high, low] + [0, 0]
    + U16ToFourU8(Mask16(TieBits(p))) + U16ToFourU8(Mask16(RestBits(p)))
  }

  /** The entries of the first `k` steps of `block`, zeros after: one of the
      encoder's 32-byte arrays after `k` iterations of its loop. */
  function Filled(block: seq<u8>, k: nat): (r: seq<u8>)
    requires |block| == 32 && k <= 16
    ensures |r| == 32
  {
    seq(32, d requires 0 <= d < 32 => if d < 2 * k then block[d] else 0)
  }

  /** Writing entries `2i` and `2i + 1` fills two more entries. */
  lemma FillPair(block: seq<u8>, i: nat)
    requires |block| == 32 && i < 16
    ensures Filled(block, i)[2 * i := block[2 * i]][2 * i + 1 := block[2 * i + 1]] == Filled(block, i + 1)
  {
  }

  /** Writing entry `2i + 1` alone fills two more entries when entry `2i` is
      zero anyway. */
  lemma FillOdd(block: seq<u8>, i: nat)
    requires |block| == 32 && i < 16 && block[2 * i] == 0
    ensures Filled(block, i)[2 * i + 1 := block[2 * i + 1]] == Filled(block, i + 1)
  {
  }

  /** After all sixteen iterations an array is complete. */
  lemma FilledAll(block: seq<u8>)
    requires |block| == 32
    ensures Filled(block, 16) == block
  {
  }

  /** What one iteration of the encoder's loop writes into its `note` array. */
  lemma NoteIteration(p: Pattern, i: nat, d: nat)
    requires Encodable(p) && i < 16 && d == 2 * i
    ensures ComposedSum(p.step[i]) < 0x100
    ensures Filled(NoteBlock(p), i)[d := ComposedSum(p.step[i]) / 16][d + 1 := ComposedSum(p.step[i]) % 16]
      == Filled(NoteBlock(p), i + 1)
  {
    FillPair(NoteBlock(p), i);
  }

  /** What one iteration writes into its `accent` and `slide` arrays. */
  lemma FlagIteration(p: Pattern, i: nat, d: nat)
    requires i < 16 && d == 2 * i
    ensures Filled(FlagBlock(Accents(p)), i)[d + 1 := FlagValue(p.step[i].accent)]
      == Filled(FlagBlock(Accents(p)), i + 1)
    ensures Filled(FlagBlock(Slides(p)), i)[d + 1 := FlagValue(p.step[i].slide)]
      == Filled(FlagBlock(Slides(p)), i + 1)
  {
    FillOdd(FlagBlock(Accents(p)), i);
    FillOdd(FlagBlock(Slides(p)), i);
  }

  /** What one iteration adds to the tie and rest masks. */
  lemma MaskIteration(p: Pattern, i: nat)
    requires i < 16
    ensures MaskOf(TieBits(p)[..i + 1]) == MaskOf(TieBits(p)[..i]) + Bit(Code(p.step[i].time), 0) * Pow2(i)
    ensures MaskOf(RestBits(p)[..i + 1]) == MaskOf(RestBits(p)[..i]) + Bit(Code(p.step[i].time), 1) * Pow2(i)
    ensures MaskOf(TieBits(p)[..i + 1]) < 0x1_0000 && MaskOf(RestBits(p)[..i + 1]) < 0x1_0000
  {
    MaskExtend(TieBits(p), i);
    MaskExtend(RestBits(p), i);
  }

  /** `pattern_to_sysex`: fills the note, accent and slide arrays and
      accumulates the two masks in a loop, then appends the pieces. */
  method PatternToSysex(p: Pattern, group: u8, pnum: u8, ab: u8) returns (sysex: seq<u8>)
    requires Encodable(p) && AddressFits(pnum, ab)
    ensures sysex == Encode(p, group, pnum, ab)
  {
    var note: seq<u8> := seq(32, _ => 0);
    var accent: seq<u8> := seq(32, _ => 0);
    var slide: seq<u8> := seq(32, _ => 0);
    var tie: u16 := 0;
    var rest: u16 := 0;
    ghost var noteBlock, accentBlock, slideBlock := NoteBlock(p), FlagBlock(Accents(p)), FlagBlock(Slides(p));
    ghost var tieBits, restBits := TieBits(p), RestBits(p);
    assert note == Filled(noteBlock, 0) && accent == Filled(accentBlock, 0) && slide == Filled(slideBlock, 0);
    for i := 0 to 16
      invariant note == Filled(noteBlock, i)
      invariant accent == Filled(accentBlock, i) && slide == Filled(slideBlock, i)
      invariant tie == MaskOf(tieBits[..i]) && rest == MaskOf(restBits[..i])
    {
      var d := 2 * i;
      var s := p.step[i];
      var hbit := if s.note >= 12 then 0x80 else 0;
      NoteIteration(p, i, d);
      FlagIteration(p, i, d);
      MaskIteration(p, i);
      var composedNote: u8 := 12 + s.note + s.transpose * 12 + hbit;
      assert composedNote == ComposedSum(p.step[i]);
      note := note[d := composedNote / 16][d + 1 := composedNote % 16];
      accent := accent[d + 1 := FlagValue(s.accent)];
      slide := slide[d + 1 := FlagValue(s.slide)];
      tie := tie + Bit(Code(s.time), 0) * Pow2(i);
      rest := rest + Bit(Code(s.time), 1) * Pow2(i);
    }
    FilledAll(noteBlock);
    FilledAll(accentBlock);
    FilledAll(slideBlock);
    assert tieBits[..16] == tieBits && restBits[..16] == restBits;
    var addr: u8 := pnum + (ab as int * 8) % 0x100;
    var high: u8, low: u8 := p.active_steps / 16, p.active_steps % 16;
    sysex := [0x78];
    sysex := sysex + [group, addr];
    sysex := sysex + [0, 1];
    sysex := sysex + note;
    sysex := sysex + accent;
    sysex := sysex + slide;
    sysex := sysex + [0, FlagValue(p.triplet)];
    sysex := sysex + [high, low];
    sysex := sysex + [0, 0];
    sysex := sysex + U16ToFourU8(tie);
    sysex := sysex + U16ToFourU8(rest);
  }

  // ---------------------------------------------------------------------
  // Layout of the encoded payload and the round trip

  /** The header: the fixed bytes, the group and the pattern address. */
  lemma EncodeHeader(p: Pattern, group: u8, pnum: u8, ab: u8)
    requires Encodable(p) && AddressFits(pnum, ab)
    ensures var r := Encode(p, group, pnum, ab);
      r[0] == 0x78 && r[1] == group && r[2] == pnum + (ab as int * 8) % 0x100 && r[3] == 0 && r[4] == 1
  {
  }

  /** The bytes after the slide array: the triplet flag, the two nibbles of
      the active step count and the zero bytes around them. */
  lemma EncodeTail(p: Pattern, group: u8, pnum: u8, ab: u8)
    requires Encodable(p) && AddressFits(pnum, ab)
    ensures var r := Encode(p, group, pnum, ab);
      r[101] == 0 && r[102] == FlagValue(p.triplet) && r[105] == 0 && r[106] == 0
    ensures var r := Encode(p, group, pnum, ab);
      r[103] == p.active_steps / 16 && r[104] == p.active_steps % 16
  {
  }

  /** Where the note array sits. */
  lemma EncodeNoteBlock(p: Pattern, group: u8, pnum: u8, ab: u8)
    requires Encodable(p) && AddressFits(pnum, ab)
    ensures Encode(p, group, pnum, ab)[5..37] == NoteBlock(p)
  {
  }

  /** Where the accent array sits. */
  lemma EncodeAccentBlock(p: Pattern, group: u8, pnum: u8, ab: u8)
    requires Encodable(p) && AddressFits(pnum, ab)
    ensures Encode(p, group, pnum, ab)[37..69] == FlagBlock(Accents(p))
  {
  }

  /** Where the slide array sits. */
  lemma EncodeSlideBlock(p: Pattern, group: u8, pnum: u8, ab: u8)
    requires Encodable(p) && AddressFits(pnum, ab)
    ensures Encode(p, group, pnum, ab)[69..101] == FlagBlock(Slides(p))
  {
  }

  /** Where the tie and rest masks sit. */
  lemma EncodeMaskBytes(p: Pattern, group: u8, pnum: u8, ab: u8)
    requires Encodable(p) && AddressFits(pnum, ab)
    ensures Encode(p, group, pnum, ab)[TIE_MASK..TIE_MASK + 4] == U16ToFourU8(Mask16(TieBits(p)))
    ensures Encode(p, group, pnum, ab)[REST_MASK..REST_MASK + 4] == U16ToFourU8(Mask16(RestBits(p)))
  {
  }

  /** Entries `2i` and `2i + 1` of the three arrays `pattern_to_sysex` fills:
      the high and low nibble of the composed note, a zero and the flag. */
  lemma BlocksAt(p: Pattern, i: nat)
    requires Encodable(p) && i < 16
    ensures NoteBlock(p)[2 * i] == ComposedSum(p.step[i]) / 16
    ensures NoteBlock(p)[2 * i + 1] == ComposedSum(p.step[i]) % 16
    ensures FlagBlock(Accents(p))[2 * i] == 0 && FlagBlock(Accents(p))[2 * i + 1] == FlagValue(p.step[i].accent)
    ensures FlagBlock(Slides(p))[2 * i] == 0 && FlagBlock(Slides(p))[2 * i + 1] == FlagValue(p.step[i].slide)
  {
  }

  /** The bytes of step `n` in an encoded payload. */
  lemma EncodedStepBytes(p: Pattern, group: u8, pnum: u8, ab: u8, n: nat)
    requires Encodable(p) && AddressFits(pnum, ab) && n < 16
    ensures var r := Encode(p, group, pnum, ab);
      r[0x05 + 2 * n] == ComposedSum(p.step[n]) / 16 && r[0x06 + 2 * n] == ComposedSum(p.step[n]) % 16
      && r[0x26 + 2 * n] == FlagValue(p.step[n].accent) && r[0x46 + 2 * n] == FlagValue(p.step[n].slide)
  {
    var r := Encode(p, group, pnum, ab);
    EncodeNoteBlock(p, group, pnum, ab);
    EncodeAccentBlock(p, group, pnum, ab);
    EncodeSlideBlock(p, group, pnum, ab);
    BlocksAt(p, n);
    assert r[0x05 + 2 * n] == r[5..37][2 * n] && r[0x06 + 2 * n] == r[5..37][2 * n + 1];
    assert r[0x26 + 2 * n] == r[37..69][2 * n + 1] && r[0x46 + 2 * n] == r[69..101][2 * n + 1];
  }

  /** Division by one of the decoder's constant divisors, spelled out. */
  lemma DivMod(q: nat, r: nat, d: nat)
    requires d == 8 || d == 12 || d == 16 || d == 0x80 || d == 0x100
    requires r < d
    ensures (d * q + r) / d == q && (d * q + r) % d == r
  {
    if d == 8 {
      assert (8 * q + r) / 8 == q;
    } else if d == 12 {
      assert (12 * q + r) / 12 == q;
    } else if d == 16 {
      assert (16 * q + r) / 16 == q;
    } else if d == 0x80 {
      assert (0x80 * q + r) / 0x80 == q;
    } else {
      assert (0x100 * q + r) / 0x100 == q;
    }
  }

  /** A note pair holding the nibbles of a step the text format can express
      decodes back to that step's note and transpose: the 7-bit raw note is
      `12 + note + 12 * transpose`, and the upper-C flag is set exactly for
      the upper C. */
  lemma {:induction false} NotePairDecodes(msg: seq<u8>, n: nat, s: Step)
    requires |msg| >= PAYLOAD_LEN && n < 16 && ValidStep(s)
    requires msg[0x05 + 2 * n] == ComposedSum(s) / 16 && msg[0x06 + 2 * n] == ComposedSum(s) % 16
    ensures StepDecodable(msg, n)
    ensures RawNote(msg, n) % 12 + UpperC(msg, n) * 12 == s.note
    ensures RawNote(msg, n) / 12 - 1 - UpperC(msg, n) == s.transpose
  {
    var c := ComposedSum(s);
    var hi, lo := msg[0x05 + 2 * n] as int, msg[0x06 + 2 * n] as int;
    DivMod(hi, lo, 16);
    assert c == 16 * hi + lo;
    assert hi < 12;
    DivMod(0, 16 * hi, 0x100);
    assert NoteSum(msg, n) == c;
    var upper := if s.note < 12 then 0 else 1;
    var raw := 12 * (1 + s.transpose + upper) + (s.note - 12 * upper);
    DivMod(upper, raw, 0x80);
    assert RawNote(msg, n) == raw;
    DivMod(1 + s.transpose + upper, s.note - 12 * upper, 12);
    if s.note < 12 {
      assert hi < 3;
      DivMod(0, hi, 8);
      assert UpperC(msg, n) == 0;
    } else {
      assert 9 <= hi < 12;
      DivMod(1, hi - 8, 8);
      assert UpperC(msg, n) == 1;
    }
  }

  /** The two nibbles of the active step count add back up to it. */
  lemma ActiveNibbles(msg: seq<u8>, a: u8)
    requires |msg| >= PAYLOAD_LEN && msg[0x67] == a / 16 && msg[0x68] == a % 16
    ensures ActiveSum(msg) == a
  {
    DivMod(a / 16, a % 16, 16);
    DivMod(0, 16 * (a / 16), 0x100);
  }

  /** The mask packer reads only its four bytes. */
  lemma PackedSumOfSlice(msg: seq<u8>, start: nat, b: seq<u8>)
    requires start + 4 <= |msg| && |b| == 4 && msg[start..start + 4] == b
    ensures PackedSum(msg, start) == PackedSum(b, 0)
  {
    assert msg[start] == b[0] && msg[start + 1] == b[1] && msg[start + 2] == b[2] && msg[start + 3] == b[3];
  }

  /** The two masks of an encoded payload read back as the masks the
      encoder accumulated. */
  lemma EncodedMasks(p: Pattern, group: u8, pnum: u8, ab: u8)
    requires Encodable(p) && AddressFits(pnum, ab)
    ensures var r := Encode(p, group, pnum, ab);
      PackFits(r, TIE_MASK) && PackFits(r, REST_MASK)
      && FourU8ToU16(r, TIE_MASK) == Mask16(TieBits(p)) && FourU8ToU16(r, REST_MASK) == Mask16(RestBits(p))
  {
    var r := Encode(p, group, pnum, ab);
    EncodeMaskBytes(p, group, pnum, ab);
    PackedSumOfSlice(r, TIE_MASK, U16ToFourU8(Mask16(TieBits(p))));
    PackedSumOfSlice(r, REST_MASK, U16ToFourU8(Mask16(RestBits(p))));
  }

  /** Every payload the encoder produces for a valid pattern is one the
      decoder accepts without overflow. */
  lemma EncodedDecodable(p: Pattern, group: u8, pnum: u8, ab: u8)
    requires ValidPattern(p) && AddressFits(pnum, ab)
    ensures Decodable(Encode(p, group, pnum, ab))
  {
    var r := Encode(p, group, pnum, ab);
    EncodedMasks(p, group, pnum, ab);
    EncodeTail(p, group, pnum, ab);
    ActiveNibbles(r, p.active_steps);
    forall n | 0 <= n < 16 ensures StepDecodable(r, n) {
      EncodedStepBytes(p, group, pnum, ab, n);
      NotePairDecodes(r, n, p.step[n]);
    }
  }

  /** Step `n` of an encoded valid pattern decodes to itself. */
  lemma DecodedEncodedStep(p: Pattern, group: u8, pnum: u8, ab: u8, n: nat)
    requires ValidPattern(p) && AddressFits(pnum, ab) && n < 16
    requires Decodable(Encode(p, group, pnum, ab))
    ensures var r := Encode(p, group, pnum, ab);
      DecodeStep(r, FourU8ToU16(r, TIE_MASK), FourU8ToU16(r, REST_MASK), n) == p.step[n]
  {
    var r := Encode(p, group, pnum, ab);
    var s := p.step[n];
    EncodedStepBytes(p, group, pnum, ab, n);
    NotePairDecodes(r, n, s);
    EncodedMasks(p, group, pnum, ab);
    var d := DecodeStep(r, FourU8ToU16(r, TIE_MASK), FourU8ToU16(r, REST_MASK), n);
    assert TieBits(p)[n] == Bit(Code(s.time), 0) && RestBits(p)[n] == Bit(Code(s.time), 1);
    TwoBitCode(Code(s.time));
    TwoBitCode(Code(d.time));
    CodeInjective(d.time, s.time);
  }

  /** Decoding an encoded valid pattern gives the pattern back, for any group
      and any address whose `pnum + (ab << 3)` fits in a byte. */
  lemma DecodeEncode(p: Pattern, group: u8, pnum: u8, ab: u8)
    requires ValidPattern(p) && AddressFits(pnum, ab)
    ensures Decodable(Encode(p, group, pnum, ab))
    ensures Decode(Encode(p, group, pnum, ab)) == p
  {
    var r := Encode(p, group, pnum, ab);
    EncodedDecodable(p, group, pnum, ab);
    EncodeTail(p, group, pnum, ab);
    ActiveNibbles(r, p.active_steps);
    var d := Decode(r);
    forall n | 0 <= n < 16 ensures d.step[n] == p.step[n] {
      DecodedEncodedStep(p, group, pnum, ab, n);
    }
    assert d.step == p.step;
  }
}
