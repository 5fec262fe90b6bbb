/** The in-memory pattern of `src/pattern.rs`: sixteen steps, each a note, an
    octave transpose, accent and slide flags and a time class, plus the
    pattern-wide triplet flag and the number of active steps. */
module PatternModel {
  import opened Base
  import opened TimeTable

  /** One sequencer step as `pattern.rs` keeps it. The text format writes
      `note` 0..11 for C..B and 12 for the upper C, and `transpose` 0 (down),
      1 (normal) or 2 (up); the binary decoder can give larger values of
      both (see `ValidStep`). */
  datatype Step = Step(note: u8, transpose: u8, accent: bool, slide: bool, time: Time)

  /** Exactly sixteen steps, as the `[Step; 16]` array. */
  type Steps = s: seq<Step> | |s| == 16 witness seq(16, _ => Step(0, 1, false, false, Normal))

  datatype Pattern = Pattern(triplet: bool, active_steps: u8, step: Steps)

  /** A step the text renderer can index its tables with. Every step the
      text parser reads is one, but a step decoded from a payload need not
      be: `BinaryCodec.DecodeCanLeaveTables` shows a payload the decoder
      accepts whose first step has note 21. */
  predicate ValidStep(s: Step) {
    s.note <= 12 && s.transpose <= 2
  }

  predicate ValidPattern(p: Pattern) {
    forall i :: 0 <= i < 16 ==> ValidStep(p.step[i])
  }

  /** `Step::default()`: the C of the normal octave, no accent, no slide, a
      plain note. */
  function DefaultStep(): (s: Step)
    ensures ValidStep(s) && s.time == Normal && !s.accent && !s.slide
    ensures s.note == 0 && s.transpose == 1
  {
    Step(0, 1, false, false, Normal)
  }

  /** `Pattern::default()`: sixteen default steps, triplet off, one active step. */
  function DefaultPattern(): (p: Pattern)
    ensures ValidPattern(p)
    ensures !p.triplet && p.active_steps == 1
    ensures forall i :: 0 <= i < 16 ==> p.step[i] == DefaultStep()
  {
    Pattern(false, 1, seq(16, _ => DefaultStep()))
  }
}
