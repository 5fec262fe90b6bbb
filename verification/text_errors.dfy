/** The order in which `string_to_pattern` checks its input, and so which
    error it reports when several things are wrong: the title first, then
    the metadata line, then the five field lines one after another (each
    its label before its count), then the steps from the first to the
    last (each its entries in field order). */
module TextErrors {
  import opened Base
  import opened Strings
  import opened PatternModel
  import opened TextFormat
  import opened TextParse

  /** The field lines in the order they are read. */
  const FIELD_ORDER: seq<Field> := [NoteField, TransposeField, AccentField, SlideField, TimeField]

  /** The lines left once the first `k` field lines have been read. */
  function AfterFields(lines: seq<string>, k: nat): seq<string>
    requires k <= 5
  {
    if k == 0 then lines else FieldEntries(AfterFields(lines, k - 1), FIELD_ORDER[k - 1]).1
  }

  /** Field `f` as `split_entries` reads it, after the fields before it. */
  function FieldRead(lines: seq<string>, f: Field): Result<Column, ParseError> {
    FieldEntries(AfterFields(lines, Rank(f)), f).0
  }

  /** The rank of a field is its place in the reading order. */
  lemma RankIsOrder(f: Field)
    ensures FIELD_ORDER[Rank(f)] == f
  {
  }

  /** Reading the columns one field line after another, as `ReadColumns`
      does, reads each field from what the previous one left. */
  lemma FieldReadsUnfold(lines: seq<string>)
    ensures FieldRead(lines, NoteField) == FieldEntries(lines, NoteField).0
    ensures FieldRead(lines, TransposeField) == FieldEntries(AfterFields(lines, 1), TransposeField).0
    ensures FieldRead(lines, AccentField) == FieldEntries(AfterFields(lines, 2), AccentField).0
    ensures FieldRead(lines, SlideField) == FieldEntries(AfterFields(lines, 3), SlideField).0
    ensures FieldRead(lines, TimeField) == FieldEntries(AfterFields(lines, 4), TimeField).0
    ensures AfterFields(lines, 1) == FieldEntries(lines, NoteField).1
    ensures AfterFields(lines, 2) == FieldEntries(AfterFields(lines, 1), TransposeField).1
    ensures AfterFields(lines, 3) == FieldEntries(AfterFields(lines, 2), AccentField).1
    ensures AfterFields(lines, 4) == FieldEntries(AfterFields(lines, 3), SlideField).1
  {
    assert Rank(AccentField) == 2 && Rank(SlideField) == 3 && Rank(TimeField) == 4;
  }

  /** The five field reads put together as `ReadColumns` does: the first
      error, or the five columns. */
  function Combine(note: Result<Column, ParseError>, transpose: Result<Column, ParseError>,
                   accent: Result<Column, ParseError>, slide: Result<Column, ParseError>,
                   time: Result<Column, ParseError>): Result<Columns, ParseError>
  {
    if note.Err? then Err(note.error)
    else if transpose.Err? then Err(transpose.error)
    else if accent.Err? then Err(accent.error)
    else if slide.Err? then Err(slide.error)
    else if time.Err? then Err(time.error)
    else Ok(Columns(note.value, transpose.value, accent.value, slide.value, time.value))
  }

  lemma ReadColumnsCombines(lines: seq<string>)
    ensures ReadColumns(lines) == Combine(FieldRead(lines, NoteField), FieldRead(lines, TransposeField),
      FieldRead(lines, AccentField), FieldRead(lines, SlideField), FieldRead(lines, TimeField))
  {
    FieldReadsUnfold(lines);
  }

  /** A field line that does not read names its own field, and either its
      label is missing or its count is wrong. */
  lemma FieldReadError(lines: seq<string>, f: Field)
    requires FieldRead(lines, f).Err?
    ensures FieldRead(lines, f).error.field == f
    ensures FieldRead(lines, f).error.MissingLabel? || FieldRead(lines, f).error.WrongCount?
  {
  }

  /** The columns are all there exactly when each field line reads, and
      then they are what the field lines hold. */
  lemma ReadColumnsOk(lines: seq<string>)
    ensures ReadColumns(lines).Ok? <==>
      && FieldRead(lines, NoteField).Ok? && FieldRead(lines, TransposeField).Ok?
      && FieldRead(lines, AccentField).Ok? && FieldRead(lines, SlideField).Ok?
      && FieldRead(lines, TimeField).Ok?
    ensures ReadColumns(lines).Ok? ==>
      forall f :: FieldRead(lines, f) == Ok(ColumnOf(ReadColumns(lines).value, f))
  {
    ReadColumnsCombines(lines);
    if ReadColumns(lines).Ok? {
      var cols := ReadColumns(lines).value;
      forall f ensures FieldRead(lines, f) == Ok(ColumnOf(cols, f)) {
        match f
        case NoteField =>
        case TransposeField =>
        case AccentField =>
        case SlideField =>
        case TimeField =>
      }
    }
  }

  /** The first field, in reading order, whose line does not read; the
      last field when all the others do. */
  function FailingField(lines: seq<string>): Field {
    if FieldRead(lines, NoteField).Err? then NoteField
    else if FieldRead(lines, TransposeField).Err? then TransposeField
    else if FieldRead(lines, AccentField).Err? then AccentField
    else if FieldRead(lines, SlideField).Err? then SlideField
    else TimeField
  }

  /** Every field line before the failing one reads. */
  lemma ReadsBeforeFailing(lines: seq<string>)
    ensures Rank(FailingField(lines)) > 0 ==> FieldRead(lines, NoteField).Ok?
    ensures Rank(FailingField(lines)) > 1 ==> FieldRead(lines, TransposeField).Ok?
    ensures Rank(FailingField(lines)) > 2 ==> FieldRead(lines, AccentField).Ok?
    ensures Rank(FailingField(lines)) > 3 ==> FieldRead(lines, SlideField).Ok?
  {
  }

  /** When the columns are not there, the error is that of the first field
      line, in reading order, that does not read: a missing label or a wrong
      count. */
  lemma ReadColumnsFirstError(lines: seq<string>, e: ParseError)
    requires ReadColumns(lines) == Err(e)
    ensures e.MissingLabel? || e.WrongCount?
    ensures FieldRead(lines, e.field) == Err(e)
    ensures forall g :: Rank(g) < Rank(e.field) ==> FieldRead(lines, g).Ok?
  {
    var f := FailingField(lines);
    assert FieldRead(lines, f) == Err(e) by {
      ReadColumnsCombines(lines);
    }
    FieldReadError(lines, f);
    ReadsBeforeFailing(lines);
    forall g | Rank(g) < Rank(f) ensures FieldRead(lines, g).Ok? {
      match g
      case NoteField =>
      case TransposeField =>
      case AccentField =>
      case SlideField =>
      case TimeField =>
    }
  }

  /** The first significant line of a text, where the title must be. */
  function TitleOf(text: string): string {
    NextSignificant(SplitLines(text)).0
  }

  /** The significant line after the title, where the metadata must be. */
  function MetadataOf(text: string): string {
    NextSignificant(NextSignificant(SplitLines(text)).1).0
  }

  /** The lines after the metadata line, where the field lines must be. */
  function BodyOf(text: string): seq<string> {
    NextSignificant(NextSignificant(SplitLines(text)).1).1
  }

  /** The errors `ReadColumns` reports are about field lines. */
  lemma ReadColumnsErrorKind(lines: seq<string>, e: ParseError)
    requires ReadColumns(lines) == Err(e)
    ensures e.MissingLabel? || e.WrongCount?
  {
    ReadColumnsFirstError(lines, e);
  }

  /** After the title and the metadata: the field lines are read before any
      step is parsed. */
  lemma ParseBodyError(lines: seq<string>, active: u8, triplet: bool, e: ParseError)
    requires ParseBody(lines, active, triplet) == Err(e)
    ensures (e.MissingLabel? || e.WrongCount?) ==> ReadColumns(lines) == Err(e)
    ensures e.WrongToken? ==> ReadColumns(lines).Ok? && ParseSteps(ReadColumns(lines).value) == Err(e)
    ensures e.MissingLabel? || e.WrongCount? || e.WrongToken?
  {
    match ReadColumns(lines)
    case Err(e') =>
      ReadColumnsErrorKind(lines, e');
    case Ok(cols) =>
  }

  /** After the title: the metadata line is read before the field lines. */
  lemma ParseAfterTitleError(lines: seq<string>, e: ParseError)
    requires ParseAfterTitle(lines) == Err(e)
    ensures e.BadMetadata? <==> ReadMetadata(NextSignificant(lines).0).Err?
    ensures e.BadMetadata? ==> ReadMetadata(NextSignificant(lines).0) == Err(e)
    ensures !e.BadMetadata? ==>
      var (active, triplet) := ReadMetadata(NextSignificant(lines).0).value;
      ParseBody(NextSignificant(lines).1, active, triplet) == Err(e)
    ensures !e.BadTitle?
  {
    var (meta, rest) := NextSignificant(lines);
    match ReadMetadata(meta)
    case Err(e') =>
    case Ok((active, triplet)) =>
      ParseBodyError(rest, active, triplet, e);
  }

  /** Which error `string_to_pattern` reports: the title is checked first,
      the metadata only after a good title, the field lines only after good
      metadata, and the steps only once all five field lines have read. */
  lemma ParseErrorOrder(text: string, e: ParseError)
    requires Parse(text) == Err(e)
    ensures e.BadTitle? <==> TitleOf(text) != TD3_PATTERN
    ensures e.BadTitle? ==> e.read == TitleOf(text)
    ensures e.BadMetadata? ==> ReadMetadata(MetadataOf(text)) == Err(e) && e.read == MetadataOf(text)
    ensures (e.MissingLabel? || e.WrongCount? || e.WrongToken?) ==> ReadMetadata(MetadataOf(text)).Ok?
    ensures (e.MissingLabel? || e.WrongCount?) ==> ReadColumns(BodyOf(text)) == Err(e)
    ensures e.WrongToken? ==>
      && ReadColumns(BodyOf(text)).Ok?
      && ParseSteps(ReadColumns(BodyOf(text)).value) == Err(e)
  {
    var (title, rest) := NextSignificant(SplitLines(text));
    if title == TD3_PATTERN {
      ParseAfterTitleError(rest, e);
      if !e.BadMetadata? {
        var (active, triplet) := ReadMetadata(MetadataOf(text)).value;
        ParseBodyError(BodyOf(text), active, triplet, e);
      }
    }
  }

  /** After the title and the metadata, a pattern comes from five field
      lines that read and sixteen steps that parse. */
  lemma ParseBodyOk(lines: seq<string>, active: u8, triplet: bool, p: Pattern)
    requires ParseBody(lines, active, triplet) == Ok(p)
    ensures p.active_steps == active && p.triplet == triplet
    ensures ReadColumns(lines).Ok? && ParseSteps(ReadColumns(lines).value) == Ok(p.step)
  {
  }

  /** After the title, a pattern comes from metadata that reads and the
      lines after it. */
  lemma ParseAfterTitleOk(lines: seq<string>, p: Pattern)
    requires ParseAfterTitle(lines) == Ok(p)
    ensures ReadMetadata(NextSignificant(lines).0) == Ok((p.active_steps, p.triplet))
    ensures ParseBody(NextSignificant(lines).1, p.active_steps, p.triplet) == Ok(p)
  {
    var (meta, rest) := NextSignificant(lines);
    match ReadMetadata(meta)
    case Ok((active, triplet)) =>
      ParseBodyOk(rest, active, triplet, p);
  }

  /** A text that parses has the title, metadata that reads, five field
      lines that read and sixteen steps that parse, and the pattern is made
      of them. */
  lemma ParseOkStages(text: string, p: Pattern)
    requires Parse(text) == Ok(p)
    ensures TitleOf(text) == TD3_PATTERN
    ensures ReadMetadata(MetadataOf(text)) == Ok((p.active_steps, p.triplet))
    ensures ReadColumns(BodyOf(text)).Ok?
    ensures ParseSteps(ReadColumns(BodyOf(text)).value) == Ok(p.step)
  {
    var rest := NextSignificant(SplitLines(text)).1;
    ParseAfterTitleOk(rest, p);
    ParseBodyOk(BodyOf(text), p.active_steps, p.triplet, p);
  }

  /** With nothing but `str::lines`' input left, `FirstKept` runs to the end. */
  lemma {:induction false} NoneKept(lines: seq<string>, k: nat, keep: string -> bool)
    requires k <= |lines|
    requires forall j :: k <= j < |lines| ==> !keep(lines[j])
    ensures FirstKept(lines, k, keep) == |lines|
    decreases |lines| - k
  {
    if k < |lines| {
      NoneKept(lines, k + 1, keep);
    }
  }

  /** A text of blank and comment lines only, the empty text among them, is
      rejected at the title, with nothing read. */
  lemma BlankTextRejected(text: string)
    requires forall j :: 0 <= j < |SplitLines(text)| ==> !Nonblank(SplitLines(text)[j])
    ensures Parse(text) == Err(BadTitle(""))
  {
    NoneKept(SplitLines(text), 0, Nonblank);
  }
}
