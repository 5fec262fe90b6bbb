/** `pattern_to_string`: the pattern as text. A title line, a metadata line
    with the active step count and the triplet flag, an empty line, a
    commented-out row of step numbers, then one line per field holding the
    sixteen step entries separated by commas, and a closing comment. */
module TextRender {
  import opened Base
  import opened Strings
  import opened TimeTable
  import opened PatternModel
  import opened TextFormat

  /** The token each step shows in field `f`. */
  function Tokens(p: Pattern, f: Field): (tokens: seq<string>)
    requires ValidPattern(p)
    ensures |tokens| == 16
  {
    match f
    case NoteField => seq(16, j requires 0 <= j < 16 => NOTE[p.step[j].note])
    case TransposeField => seq(16, j requires 0 <= j < 16 => TRANSPOSE[p.step[j].transpose])
    case AccentField => seq(16, j requires 0 <= j < 16 => ACCENT[FlagValue(p.step[j].accent)])
    case SlideField => seq(16, j requires 0 <= j < 16 => SLIDE[FlagValue(p.step[j].slide)])
    case TimeField => seq(16, j requires 0 <= j < 16 => TimeToken(p.step[j].time))
  }

  /** The entry of step `s` in field `f` as the loop formats it: its token
      padded to width two, or the `Debug` text of its time class. */
  function Item(s: Step, f: Field): string
    requires ValidStep(s)
  {
    match f
    case NoteField => Pad2(NOTE[s.note])
    case TransposeField => Pad2(TRANSPOSE[s.transpose])
    case AccentField => Pad2(ACCENT[FlagValue(s.accent)])
    case SlideField => Pad2(SLIDE[FlagValue(s.slide)])
    case TimeField => Debug(s.time)
  }

  /** The entries of field `f`, one per step: the step's token padded to
      width two. */
  function Items(p: Pattern, f: Field): seq<string>
    requires ValidPattern(p)
  {
    seq(16, j requires 0 <= j < 16 => Item(p.step[j], f))
  }

  /** The step numbers 01 to 16. */
  function StepNumbers(p: Pattern): seq<string> {
    seq(|p.step|, j requires 0 <= j < |p.step| => TwoDigits(j + 1))
  }

  function OnOff(b: bool): string {
    if b then "On" else "Off"
  }

  /** `Active Steps: <n>, Triplet Time: On|Off` */
  function MetaLine(p: Pattern): string {
    ACTIVE_STEPS + ": " + Decimal(p.active_steps) + ", " + TRIPLET + ": " + OnOff(p.triplet)
  }

  function StepLine(p: Pattern): string {
    STEP_S + RowText(StepNumbers(p), 16)
  }

  function FieldLine(p: Pattern, f: Field): string
    requires ValidPattern(p)
  {
    Label(f) + RowText(Items(p, f), 16) + Legend(f)
  }

  /** The lines of the rendered text, without their line ends. */
  function RenderLines(p: Pattern): (lines: seq<string>)
    requires ValidPattern(p)
  {
    [TD3_PATTERN, MetaLine(p), "", StepLine(p),
     FieldLine(p, NoteField), FieldLine(p, TransposeField), FieldLine(p, AccentField),
     FieldLine(p, SlideField), FieldLine(p, TimeField), FOOTER]
  }

  /** The text `pattern_to_string` returns: every line ended by `\n`. */
  function Render(p: Pattern): string
    requires ValidPattern(p)
  {
    JoinLines(RenderLines(p))
  }

  /** The loop of `pattern_to_string`: the step-number row and the five
      field rows, label and sixteen entries each, without their legends. */
  method Rows(p: Pattern) returns (num: string, note: string, transpose: string, accent: string, slide: string, time: string)
    requires ValidPattern(p)
    ensures num == STEP_S + RowText(StepNumbers(p), 16)
    ensures note == Label(NoteField) + RowText(Items(p, NoteField), 16)
    ensures transpose == Label(TransposeField) + RowText(Items(p, TransposeField), 16)
    ensures accent == Label(AccentField) + RowText(Items(p, AccentField), 16)
    ensures slide == Label(SlideField) + RowText(Items(p, SlideField), 16)
    ensures time == Label(TimeField) + RowText(Items(p, TimeField), 16)
  {
    var sep := "";
    num := STEP_S;
    note := NOTE_S;
    transpose := TRANSPOSE_S;
    accent := ACCENT_S;
    slide := SLIDE_S;
    time := TIME;
    assert note == Label(NoteField) + RowText(Items(p, NoteField), 0);
    for i := 0 to 16
      invariant sep == if i < 2 then "" else ","
      invariant num == STEP_S + RowText(StepNumbers(p), i)
      invariant note == Label(NoteField) + RowText(Items(p, NoteField), i)
      invariant transpose == Label(TransposeField) + RowText(Items(p, TransposeField), i)
      invariant accent == Label(AccentField) + RowText(Items(p, AccentField), i)
      invariant slide == Label(SlideField) + RowText(Items(p, SlideField), i)
      invariant time == Label(TimeField) + RowText(Items(p, TimeField), i)
    {
      if i == 1 {
        sep := sep + ",";
      }
      num, note, transpose, accent, slide, time := PushStep(p, i, sep, num, note, transpose, accent, slide, time);
    }
  }

  /** One turn of the loop over the steps: step `i`'s entry, after the
      separator, on the end of each field row. */
  method PushStep(p: Pattern, i: nat, sep: string, num: string, note: string, transpose: string, accent: string, slide: string, time: string)
    returns (num': string, note': string, transpose': string, accent': string, slide': string, time': string)
    requires ValidPattern(p) && i < 16 && sep == if i < 1 then "" else ","
    requires num == STEP_S + RowText(StepNumbers(p), i)
    requires note == Label(NoteField) + RowText(Items(p, NoteField), i)
    requires transpose == Label(TransposeField) + RowText(Items(p, TransposeField), i)
    requires accent == Label(AccentField) + RowText(Items(p, AccentField), i)
    requires slide == Label(SlideField) + RowText(Items(p, SlideField), i)
    requires time == Label(TimeField) + RowText(Items(p, TimeField), i)
    ensures num' == STEP_S + RowText(StepNumbers(p), i + 1)
    ensures note' == Label(NoteField) + RowText(Items(p, NoteField), i + 1)
    ensures transpose' == Label(TransposeField) + RowText(Items(p, TransposeField), i + 1)
    ensures accent' == Label(AccentField) + RowText(Items(p, AccentField), i + 1)
    ensures slide' == Label(SlideField) + RowText(Items(p, SlideField), i + 1)
    ensures time' == Label(TimeField) + RowText(Items(p, TimeField), i + 1)
  {
    num' := num + (sep + " " + TwoDigits(i + 1));
    RowPush(STEP_S, StepNumbers(p), i, sep);
    var s := p.step[i];
    assert ValidStep(s);
    var noteEntry, transposeEntry := Pad2(NOTE[s.note]), Pad2(TRANSPOSE[s.transpose]);
    var accentEntry, slideEntry := Pad2(ACCENT[FlagValue(s.accent)]), Pad2(SLIDE[FlagValue(s.slide)]);
    var timeEntry := Debug(s.time);
    assert noteEntry == Item(s, NoteField) && transposeEntry == Item(s, TransposeField);
    assert accentEntry == Item(s, AccentField) && slideEntry == Item(s, SlideField);
    assert timeEntry == Item(s, TimeField);
    FieldRowPush(p, NoteField, i, sep, note);
    FieldRowPush(p, TransposeField, i, sep, transpose);
    FieldRowPush(p, AccentField, i, sep, accent);
    FieldRowPush(p, SlideField, i, sep, slide);
    FieldRowPush(p, TimeField, i, sep, time);
    note' := note + (sep + " " + noteEntry);
    transpose' := transpose + (sep + " " + transposeEntry);
    accent' := accent + (sep + " " + accentEntry);
    slide' := slide + (sep + " " + slideEntry);
    time' := time + (sep + " " + timeEntry);
  }

  /** `pattern_to_string`: six rows built entry by entry, then the lines
      pushed onto the result in order. */
  method PatternToString(p: Pattern) returns (text: string)
    requires ValidPattern(p)
    ensures text == Render(p)
  {
    var num, note, transpose, accent, slide, time := Rows(p);
    AppendAssoc(note, Legend(NoteField), "\n");
    AppendAssoc(transpose, Legend(TransposeField), "\n");
    AppendAssoc(accent, Legend(AccentField), "\n");
    AppendAssoc(slide, Legend(SlideField), "\n");
    AppendAssoc(time, Legend(TimeField), "\n");
    Legends();
    num := num + "\n";
    note := note + "  // C -C# .. B -C^\n";
    transpose := transpose + "  // DN-  -UP\n";
    accent := accent + "  //   -AC\n";
    slide := slide + "  //   -SL\n";
    time := time + "  //   -TI-RE\n";

    text := TD3_PATTERN;
    text := text + "\n";
    text := text + (ACTIVE_STEPS + ": " + Decimal(p.active_steps) + ", " + TRIPLET + ": " + OnOff(p.triplet) + "\n");
    text := text + "\n";
    text := text + num;
    text := text + note;
    text := text + transpose;
    text := text + accent;
    text := text + slide;
    text := text + time;
    text := text + (FOOTER + "\n");
    RenderPushed(p, num, note, transpose, accent, slide, time);
  }

  /** One iteration of the rendering loop on the row of field `f`. */
  lemma FieldRowPush(p: Pattern, f: Field, i: nat, sep: string, row: string)
    requires ValidPattern(p) && i < 16 && sep == (if i == 0 then "" else ",")
    requires row == Label(f) + RowText(Items(p, f), i)
    ensures row + (sep + " " + Item(p.step[i], f)) == Label(f) + RowText(Items(p, f), i + 1)
  {
    RowPush(Label(f), Items(p, f), i, sep);
  }

  lemma AppendAssoc(a: string, b: string, c: string)
    ensures a + (b + c) == a + b + c
  {
  }

  /** The line ends and legends the loop appends are the rendered ones. */
  lemma Legends()
    ensures "  // C -C# .. B -C^\n" == Legend(NoteField) + "\n"
    ensures "  // DN-  -UP\n" == Legend(TransposeField) + "\n"
    ensures "  //   -AC\n" == Legend(AccentField) + "\n"
    ensures "  //   -SL\n" == Legend(SlideField) + "\n"
    ensures "  //   -TI-RE\n" == Legend(TimeField) + "\n"
  {
  }

  /** Pushing the title, the metadata line, the empty line, the rows and the
      footer in order yields the rendered text. */
  lemma RenderPushed(p: Pattern, num: string, note: string, transpose: string, accent: string,
                     slide: string, time: string)
    requires ValidPattern(p)
    requires num == StepLine(p) + "\n"
    requires note == FieldLine(p, NoteField) + "\n" && transpose == FieldLine(p, TransposeField) + "\n"
    requires accent == FieldLine(p, AccentField) + "\n" && slide == FieldLine(p, SlideField) + "\n"
    requires time == FieldLine(p, TimeField) + "\n"
    ensures TD3_PATTERN + "\n"
      + (ACTIVE_STEPS + ": " + Decimal(p.active_steps) + ", " + TRIPLET + ": " + OnOff(p.triplet) + "\n")
      + "\n" + num + note + transpose + accent + slide + time
      + (FOOTER + "\n")
      == Render(p)
  {
    var meta := ACTIVE_STEPS + ": " + Decimal(p.active_steps) + ", " + TRIPLET + ": " + OnOff(p.triplet);
    JoinTen(TD3_PATTERN, meta, "", StepLine(p), FieldLine(p, NoteField), FieldLine(p, TransposeField),
            FieldLine(p, AccentField), FieldLine(p, SlideField), FieldLine(p, TimeField), FOOTER);
    EmptyPrefix("\n");
  }

  /** Ten lines joined are the ten lines pushed one after another, each
      with its `\n`. */
  lemma JoinTen(l0: string, l1: string, l2: string, l3: string, l4: string, l5: string, l6: string,
                l7: string, l8: string, l9: string)
    ensures JoinLines([l0, l1, l2, l3, l4, l5, l6, l7, l8, l9])
      == l0 + "\n" + (l1 + "\n") + (l2 + "\n") + (l3 + "\n") + (l4 + "\n") + (l5 + "\n") + (l6 + "\n")
         + (l7 + "\n") + (l8 + "\n") + (l9 + "\n")
  {
    var lines := [l0, l1, l2, l3, l4, l5, l6, l7, l8, l9];
    assert lines[..0] == [];
    JoinLinesPushed(lines, 0, "", l0 + "\n");
    var t := l0 + "\n";
    EmptyPrefix(t);
    JoinLinesPushed(lines, 1, t, l1 + "\n");
    t := t + (l1 + "\n");
    JoinLinesPushed(lines, 2, t, l2 + "\n");
    t := t + (l2 + "\n");
    JoinLinesPushed(lines, 3, t, l3 + "\n");
    t := t + (l3 + "\n");
    JoinLinesPushed(lines, 4, t, l4 + "\n");
    t := t + (l4 + "\n");
    JoinLinesPushed(lines, 5, t, l5 + "\n");
    t := t + (l5 + "\n");
    JoinLinesPushed(lines, 6, t, l6 + "\n");
    t := t + (l6 + "\n");
    JoinLinesPushed(lines, 7, t, l7 + "\n");
    t := t + (l7 + "\n");
    JoinLinesPushed(lines, 8, t, l8 + "\n");
    t := t + (l8 + "\n");
    JoinLinesPushed(lines, 9, t, l9 + "\n");
    t := t + (l9 + "\n");
    WholeSlice(lines);
  }

  lemma EmptyPrefix(s: string)
    ensures "" + s == s
  {
  }

  lemma WholeSlice(lines: seq<string>)
    ensures lines[..|lines|] == lines
  {
  }
}
