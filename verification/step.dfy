/** The typed step of `src/step.rs`: the same information `pattern.rs` keeps
    as two booleans is carried by the two-valued `Accent` and `Slide` enums,
    each with its string token and its `u8` conversion. Its `Time` enum is
    the one of `src/time.rs`, variant for variant. */
module TypedStep {
  import opened Base
  import opened Strings
  import opened TimeTable
  import PatternModel

  datatype Accent = AccentOff | AccentOn

  datatype Slide = SlideOff | SlideOn

  datatype Step = Step(note: u8, transpose: u8, accent: Accent, slide: Slide, time: Time)

  /** `Step::default()` */
  function DefaultStep(): (s: Step)
    ensures s == FromPatternStep(PatternModel.DefaultStep())
  {
    Step(0, 1, AccentOff, SlideOff, Normal)
  }

  /** `a as u8` */
  function AccentCode(a: Accent): (c: u8)
    ensures c <= 1 && (c == 1 <==> a == AccentOn)
  {
    match a
    case AccentOff => 0
    case AccentOn => 1
  }

  /** `Accent::from_str`: only the empty token and `AC`. */
  function AccentFromStr(s: string): (r: Result<Accent, ()>)
    ensures r.Ok? <==> s == "" || s == "AC"
    ensures r == Ok(AccentOn) <==> s == "AC"
  {
    if s == "" then Ok(AccentOff)
    else if s == "AC" then Ok(AccentOn)
    else Err(())
  }

  /** The `Debug` rendering: Off as two spaces. */
  function AccentDebug(a: Accent): (s: string)
    ensures |s| == 2
    ensures a == AccentOff ==> s == "  "
    ensures a == AccentOn ==> s == "AC"
  {
    match a
    case AccentOff => "  "
    case AccentOn => "AC"
  }

  /** `Accent::try_from(v: u8)` */
  function AccentTryFromU8(v: u8): (r: Result<Accent, ()>)
    ensures r.Ok? <==> v <= 1
    ensures r.Ok? ==> AccentCode(r.value) == v
  {
    if v == AccentCode(AccentOn) then Ok(AccentOn)
    else if v == AccentCode(AccentOff) then Ok(AccentOff)
    else Err(())
  }

  /** `s as u8` */
  function SlideCode(s: Slide): (c: u8)
    ensures c <= 1 && (c == 1 <==> s == SlideOn)
  {
    match s
    case SlideOff => 0
    case SlideOn => 1
  }

  /** `Slide::from_str`: only the empty token and `SL`. */
  function SlideFromStr(s: string): (r: Result<Slide, ()>)
    ensures r.Ok? <==> s == "" || s == "SL"
    ensures r == Ok(SlideOn) <==> s == "SL"
  {
    if s == "" then Ok(SlideOff)
    else if s == "SL" then Ok(SlideOn)
    else Err(())
  }

  /** The `Debug` rendering: Off as two spaces. */
  function SlideDebug(s: Slide): (r: string)
    ensures |r| == 2
    ensures s == SlideOff ==> r == "  "
    ensures s == SlideOn ==> r == "SL"
  {
    match s
    case SlideOff => "  "
    case SlideOn => "SL"
  }

  /** `Slide::try_from(v: u8)` */
  function SlideTryFromU8(v: u8): (r: Result<Slide, ()>)
    ensures r.Ok? <==> v <= 1
    ensures r.Ok? ==> SlideCode(r.value) == v
  {
    if v == SlideCode(SlideOn) then Ok(SlideOn)
    else if v == SlideCode(SlideOff) then Ok(SlideOff)
    else Err(())
  }

  /** The `u8` conversions undo the casts. */
  lemma TryFromInvertsCode(a: Accent, s: Slide)
    ensures AccentTryFromU8(AccentCode(a)) == Ok(a)
    ensures SlideTryFromU8(SlideCode(s)) == Ok(s)
  {
  }

  /** The `Debug` text of an accent, trimmed, parses back to it. */
  lemma AccentDebugRoundTrip(a: Accent)
    ensures AccentFromStr(Trim(AccentDebug(a))) == Ok(a)
  {
    match a
    case AccentOff => TrimPadded("", "  ", "");
    case AccentOn => TrimPadded("AC", "", "");
  }

  /** The `Debug` text of a slide, trimmed, parses back to it. */
  lemma SlideDebugRoundTrip(s: Slide)
    ensures SlideFromStr(Trim(SlideDebug(s))) == Ok(s)
  {
    match s
    case SlideOff => TrimPadded("", "  ", "");
    case SlideOn => TrimPadded("SL", "", "");
  }

  /** The flags of `pattern.rs` as typed values. */
  function FromPatternStep(s: PatternModel.Step): (t: Step)
    ensures t.note == s.note && t.transpose == s.transpose && t.time == s.time
    ensures (t.accent == AccentOn) == s.accent && (t.slide == SlideOn) == s.slide
  {
    Step(s.note, s.transpose, if s.accent then AccentOn else AccentOff,
         if s.slide then SlideOn else SlideOff, s.time)
  }

  /** The typed values as the flags of `pattern.rs`. */
  function ToPatternStep(t: Step): (s: PatternModel.Step)
    ensures FromPatternStep(s) == t
  {
    PatternModel.Step(t.note, t.transpose, t.accent == AccentOn, t.slide == SlideOn, t.time)
  }

  /** The two step representations carry the same information. */
  lemma SameInformation(s: PatternModel.Step, t: Step)
    ensures ToPatternStep(FromPatternStep(s)) == s
    ensures FromPatternStep(ToPatternStep(t)) == t
  {
  }
}
