/** `string_to_pattern` and its helpers: reading a pattern back from text.
    Comments (from `//` to the end of a line) and blank lines are skipped;
    the first significant line must be the title, the second the metadata,
    then come the five field lines in their fixed order, each holding
    exactly sixteen comma-separated entries taken from the field's table. */
module TextParse {
  import opened Base
  import opened Strings
  import opened TimeTable
  import opened PatternModel
  import opened TextFormat

  /** Why parsing stopped, with the data the source's message shows. */
  datatype ParseError =
    | BadTitle(read: string)
    | BadMetadata(read: string)
    | MissingLabel(field: Field, read: string)
    | WrongCount(field: Field, found: nat)
    | WrongToken(field: Field, position: nat, token: string)

  /** The message text of an error. Errors about a line read start with
      `Expecting` and end with that line; a wrong count names the count
      found; a wrong token ends with the token rejected. */
  function Message(e: ParseError): (r: string)
    ensures (e.BadTitle? || e.BadMetadata? || e.MissingLabel?) ==>
      StartsWith(r, "Expecting ") && EndsWith(r, ", read: " + e.read)
    ensures e.WrongCount? ==> StartsWith(r, "Line with '") && EndsWith(r, Decimal(e.found) + " found instead")
    ensures e.WrongToken? ==> StartsWith(r, "Wrong '") && EndsWith(r, ": " + e.token)
  {
    var (head, body, tail) := MessageParts(e);
    Framed(head, body, tail);
    head + body + tail
  }

  /** The message of an error cut into its opening words, its middle and
      its closing part. */
  function MessageParts(e: ParseError): (string, string, string) {
    match e
    case BadTitle(read) => ("Expecting ", TD3_PATTERN, ", read: " + read)
    case BadMetadata(read) => ("Expecting ", ACTIVE_STEPS + ": # and " + TRIPLET + ": #", ", read: " + read)
    case MissingLabel(f, read) => ("Expecting ", Label(f) + ": ...", ", read: " + read)
    case WrongCount(f, n) =>
      ("Line with '", Trim(Label(f)) + "' should have 16 values, ", Decimal(n) + " found instead")
    case WrongToken(f, i, token) => ("Wrong '", Trim(Label(f)) + "' on postion " + Decimal(i), ": " + token)
  }

  /** The part of a line before its first `//`: `line[0..x]` when
      `line.find("//")` is `Some(x)`, the whole line otherwise. */
  function BeforeComment(raw: string): string {
    match FindDoubleSlash(raw)
    case Some(x) => raw[..x]
    case None => raw
  }

  /** What `BeforeComment` keeps: the longest prefix of the line that holds
      no `//`, stopping where the first `//` starts. */
  lemma BeforeCommentFirst(raw: string)
    ensures var code := BeforeComment(raw);
      && |code| <= |raw| && code == raw[..|code|]
      && (|code| < |raw| ==> SlashPairAt(raw, |code|))
      && (forall i :: 0 <= i < |code| ==> !SlashPairAt(raw, i))
      && (forall i :: !SlashPairAt(code, i))
  {
    match FindDoubleSlash(raw)
    case Some(x) => NoPairBeforeFirst(raw, x);
    case None => assert raw[..|raw|] == raw;
  }

  /** A line with its comment cut off and its whitespace trimmed. */
  function Significant(raw: string): (line: string)
    ensures Trimmed(line)
    ensures forall i :: !SlashPairAt(line, i)
  {
    match FindDoubleSlash(raw)
    case Some(x) =>
      NoPairBeforeFirst(raw, x);
      TrimKeepsOut(raw[..x], ' ');
      TrimIsTrimmed(raw[..x]);
      Trim(raw[..x])
    case None =>
      TrimKeepsOut(raw, ' ');
      TrimIsTrimmed(raw);
      Trim(raw)
  }

  /** The significant part of a line is the part before its first `//`,
      trimmed. */
  lemma SignificantIsTrimmedCode(raw: string)
    ensures Significant(raw) == Trim(BeforeComment(raw))
  {
  }

  /** A line with something left once its comment is cut off and it is
      trimmed: the `line.len() > 0` test. */
  predicate Nonblank(raw: string) {
    |Significant(raw)| > 0
  }

  /** The index of the first line from `k` on that `keep` accepts; the
      number of lines when there is none. */
  function FirstKept(lines: seq<string>, k: nat, keep: string -> bool): (r: nat)
    requires k <= |lines|
    ensures k <= r <= |lines|
    ensures r < |lines| ==> keep(lines[r])
    decreases |lines| - k
  {
    if k == |lines| then k
    else if keep(lines[k]) then k
    else FirstKept(lines, k + 1, keep)
  }

  /** Every line passed over before the first kept one is rejected. */
  lemma {:induction false} SkippedNotKept(lines: seq<string>, k: nat, j: nat, keep: string -> bool)
    requires k <= |lines| && k <= j < FirstKept(lines, k, keep)
    ensures !keep(lines[j])
    decreases j - k
  {
    if j > k {
      SkippedNotKept(lines, k + 1, j, keep);
    }
  }

  /** A kept line after rejected ones is the first kept one. */
  lemma {:induction false} FirstKeptAt(lines: seq<string>, k: nat, n: nat, keep: string -> bool)
    requires k <= n < |lines| && keep(lines[n])
    requires forall j :: k <= j < n ==> !keep(lines[j])
    ensures FirstKept(lines, k, keep) == n
    decreases n - k
  {
    if k < n {
      FirstKeptAt(lines, k + 1, n, keep);
    }
  }

  /** The first line that is not blank, with its comment cut off and
      trimmed, and the lines after it; an empty line and nothing left when
      there is none. */
  function NextSignificant(lines: seq<string>): (r: (string, seq<string>))
    ensures |r.1| <= |lines| && r.1 == lines[|lines| - |r.1|..]
    ensures |r.0| == 0 ==> |r.1| == 0
    ensures |r.0| > 0 ==> |r.1| < |lines| && r.0 == Significant(lines[|lines| - |r.1| - 1])
  {
    var k := FirstKept(lines, 0, Nonblank);
    if k == |lines| then ("", [])
    else
      FirstKeptNonblank(lines, k);
      (Significant(lines[k]), lines[k + 1..])
  }

  /** The line the search stops at has something significant. */
  lemma FirstKeptNonblank(lines: seq<string>, k: nat)
    requires k == FirstKept(lines, 0, Nonblank) && k < |lines|
    ensures |Significant(lines[k])| > 0
  {
    assert Nonblank(lines[k]);
  }

  /** The lines `next_nonempty_line` passes over are blank: all of them
      when it returns the empty line. */
  lemma NextSignificantSkips(lines: seq<string>)
    ensures var r := NextSignificant(lines);
      var skipped := if |r.0| == 0 then |lines| else |lines| - |r.1| - 1;
      forall j :: 0 <= j < skipped ==> !Nonblank(lines[j])
  {
    forall j | 0 <= j < FirstKept(lines, 0, Nonblank) {
      SkippedNotKept(lines, 0, j, Nonblank);
    }
  }

  /** The first line that is not blank decides what is read. */
  lemma NextSignificantAt(lines: seq<string>, n: nat)
    requires n < |lines| && Nonblank(lines[n])
    requires forall j :: 0 <= j < n ==> !Nonblank(lines[j])
    ensures NextSignificant(lines) == (Significant(lines[n]), lines[n + 1..])
  {
    FirstKeptAt(lines, 0, n, Nonblank);
  }

  /** `std::str::Lines`: the lines of a text that have not been read yet. */
  class Lines {
    var rest: seq<string>

    /** `text.lines()` */
    constructor(text: string)
      ensures rest == SplitLines(text)
    {
      rest := SplitLines(text);
    }

    /** `Iterator::next` */
    method Next() returns (line: Option<string>)
      modifies this
      ensures old(rest) == [] ==> line.None? && rest == []
      ensures old(rest) != [] ==> line == Some(old(rest)[0]) && rest == old(rest)[1..]
    {
      if rest == [] {
        line := None;
      } else {
        line := Some(rest[0]);
        rest := rest[1..];
      }
    }
  }

  /** `next_nonempty_line`: reads lines until one is significant. */
  method NextNonemptyLine(lines: Lines) returns (line: string)
    modifies lines
    ensures (line, lines.rest) == NextSignificant(old(lines.rest))
  {
    ghost var all := lines.rest;
    ghost var k := 0;
    while true
      invariant k <= |all| && lines.rest == all[k..]
      invariant FirstKept(all, k, Nonblank) == FirstKept(all, 0, Nonblank)
      decreases |lines.rest|
    {
      var next := lines.Next();
      if next.None? {
        return "";
      }
      line := Significant(next.value);
      if |line| > 0 {
        return;
      }
      k := k + 1;
    }
  }

  /** Sixteen entries, one per step. */
  type Column = s: seq<string> | |s| == 16 witness seq(16, _ => "")

  /** The entries of a significant line read as field `f`: the label must
      start the line, and the rest must split at commas into exactly sixteen
      entries, which are trimmed. */
  function Entries(line: string, f: Field): (r: Result<Column, ParseError>)
    ensures !StartsWith(line, Label(f)) ==> r == Err(MissingLabel(f, line))
    ensures StartsWith(line, Label(f)) ==>
      && (r.Ok? <==> |Split(line[|Label(f)|..], ',')| == 16)
      && (r.Err? ==> r.error == WrongCount(f, |Split(line[|Label(f)|..], ',')|))
    ensures r.Ok? ==> forall j :: 0 <= j < 16 ==> ',' !in r.value[j] && Trimmed(r.value[j])
  {
    if !StartsWith(line, Label(f)) then Err(MissingLabel(f, line))
    else
      var vals := Split(line[|Label(f)|..], ',');
      if |vals| != 16 then Err(WrongCount(f, |vals|))
      else
        assert forall j :: 0 <= j < 16 ==> ',' !in Trim(vals[j]) by {
          forall j | 0 <= j < 16 ensures ',' !in Trim(vals[j]) {
            TrimKeepsOut(vals[j], ',');
          }
        }
        var col: Column := seq(16, j requires 0 <= j < 16 => Trim(vals[j]));
        Ok(col)
  }

  /** A line read as field `f` gives, entry by entry, the trimmed pieces of
      the text after the label split at commas. */
  lemma EntriesArePieces(line: string, f: Field)
    requires Entries(line, f).Ok?
    ensures StartsWith(line, Label(f)) && |Split(line[|Label(f)|..], ',')| == 16
    ensures forall j :: 0 <= j < 16 ==>
      Entries(line, f).value[j] == Trim(Split(line[|Label(f)|..], ',')[j])
  {
  }

  /** `split_entries` on the lines not read yet: the entries and the lines
      left after the one they came from. */
  function FieldEntries(lines: seq<string>, f: Field): (Result<Column, ParseError>, seq<string>) {
    var (line, rest) := NextSignificant(lines);
    (Entries(line, f), rest)
  }

  /** `split_entries` */
  method SplitEntries(lines: Lines, f: Field) returns (r: Result<Column, ParseError>)
    modifies lines
    ensures (r, lines.rest) == FieldEntries(old(lines.rest), f)
  {
    var line := NextNonemptyLine(lines);
    r := Entries(line, f);
  }

  /** The four values the metadata line is scanned into. */
  datatype Metadata = Metadata(activeLabel: string, active: u8, tripletLabel: string, tripletValue: string)

  /** The metadata line read as `<label>: <number>, <label>: <value>`, the
      labels running up to their colon and the number fitting a `u8`. */
  function ScanMetadata(line: string): (r: Option<Metadata>)
    ensures r.Some? ==> ':' !in r.value.activeLabel && ':' !in r.value.tripletLabel
    ensures r.Some? ==> exists digits :: Written(line, r.value, digits)
  {
    match IndexOf(line, ':')
    case None => None
    case Some(i) =>
      var r := ScanActive(line[..i], line[i + 1..]);
      if r.None? then r
      else
        var digits :| WrittenAfterLabel(line[i + 1..], r.value, digits);
        WrittenLabel(line, i, r.value, digits);
        r
  }

  /** The first label and its colon complete the written metadata. */
  lemma WrittenLabel(line: string, i: nat, m: Metadata, digits: string)
    requires i < |line| && line[i] == ':' && m.activeLabel == line[..i]
    requires WrittenAfterLabel(line[i + 1..], m, digits)
    ensures Written(line, m, digits)
  {
    var tail := ", " + m.tripletLabel + ": " + m.tripletValue;
    assert line == line[..i] + ":" + line[i + 1..];
    assert line[i + 1..] == " " + digits + tail;
    assert m.activeLabel + ": " + digits + tail == line[..i] + ":" + (" " + digits + tail);
    assert m.activeLabel + ": " + digits + ", " + m.tripletLabel + ": " + m.tripletValue
      == m.activeLabel + ": " + digits + tail;
  }

  /** `line` is the metadata `m` written out, its number as `digits`. */
  predicate Written(line: string, m: Metadata, digits: string) {
    && |digits| > 0 && AllDigits(digits) && DigitsValue(digits) == m.active
    && line == m.activeLabel + ": " + digits + ", " + m.tripletLabel + ": " + m.tripletValue
  }

  /** The part of the written metadata `m` after the first colon. */
  predicate WrittenAfterLabel(rest: string, m: Metadata, digits: string) {
    && |digits| > 0 && AllDigits(digits) && DigitsValue(digits) == m.active
    && rest == " " + digits + ", " + m.tripletLabel + ": " + m.tripletValue
  }

  /** The metadata line after the first label and its colon: a space and
      the number. */
  function ScanActive(activeLabel: string, rest: string): (r: Option<Metadata>)
    ensures r.Some? ==> r.value.activeLabel == activeLabel && ':' !in r.value.tripletLabel
    ensures r.Some? ==> exists digits :: WrittenAfterLabel(rest, r.value, digits)
  {
    if !StartsWith(rest, " ") then None
    else
      var number := rest[1..];
      var k := LeadingDigits(number);
      if k == 0 || DigitsValue(number[..k]) >= 0x100 then None
      else
        var r := ScanTriplet(activeLabel, DigitsValue(number[..k]), number[k..]);
        if r.None? then r
        else
          WrittenNumber(rest, k, r.value);
          r
  }

  /** A space, a digit run of length `k` holding the active step count,
      then the triplet part: the shape `WrittenAfterLabel` names. */
  lemma WrittenNumber(rest: string, k: nat, m: Metadata)
    requires StartsWith(rest, " ") && 0 < k <= |rest| - 1
    requires AllDigits(rest[1..][..k]) && DigitsValue(rest[1..][..k]) == m.active
    requires rest[1..][k..] == ", " + m.tripletLabel + ": " + m.tripletValue
    ensures WrittenAfterLabel(rest, m, rest[1..][..k])
  {
    var number := rest[1..];
    assert rest == " " + number[..k] + number[k..];
  }

  /** The metadata line after the number: a comma, a space, the second
      label up to its colon, a space and the value. */
  function ScanTriplet(activeLabel: string, active: u8, after: string): (r: Option<Metadata>)
    ensures r.Some? ==> r.value.activeLabel == activeLabel && r.value.active == active
    ensures r.Some? ==> ':' !in r.value.tripletLabel
    ensures r.Some? ==> after == ", " + r.value.tripletLabel + ": " + r.value.tripletValue
  {
    if !StartsWith(after, ", ") then None
    else
      var second := after[2..];
      match IndexOf(second, ':')
      case None => None
      case Some(j) =>
        var tail := second[j + 1..];
        if !StartsWith(tail, " ") then None
        else Some(Metadata(activeLabel, active, second[..j], tail[1..]))
  }

  /** The active step count and the triplet flag of the metadata line. The
      labels must be exactly `Active Steps` and `Triplet Time`, and the
      triplet flag is set only by the value `On`. */
  function ReadMetadata(line: string): (r: Result<(u8, bool), ParseError>)
    ensures r.Err? ==> r.error == BadMetadata(line)
    ensures r.Ok? <==>
      && ScanMetadata(line).Some?
      && ScanMetadata(line).value.activeLabel == ACTIVE_STEPS
      && ScanMetadata(line).value.tripletLabel == TRIPLET
    ensures r.Ok? ==>
      && r.value.0 == ScanMetadata(line).value.active
      && (r.value.1 <==> ScanMetadata(line).value.tripletValue == "On")
  {
    match ScanMetadata(line)
    case None => Err(BadMetadata(line))
    case Some(m) =>
      if m.activeLabel != ACTIVE_STEPS || m.tripletLabel != TRIPLET then Err(BadMetadata(line))
      else Ok((m.active, m.tripletValue == "On"))
  }

  /** The entries of the five field lines. */
  datatype Columns = Columns(note: Column, transpose: Column, accent: Column, slide: Column, time: Column)

  /** The entries of field `f`. */
  function ColumnOf(cols: Columns, f: Field): Column {
    match f
    case NoteField => cols.note
    case TransposeField => cols.transpose
    case AccentField => cols.accent
    case SlideField => cols.slide
    case TimeField => cols.time
  }

  /** `table.iter().position(|t| t == token)`, looking from index `k` on. */
  function PositionFrom(table: seq<string>, token: string, k: nat): (r: Option<nat>)
    requires k <= |table|
    ensures r.Some? ==> k <= r.value < |table|
    decreases |table| - k
  {
    if k == |table| then None
    else if table[k] == token then Some(k)
    else PositionFrom(table, token, k + 1)
  }

  /** `table.iter().position(|t| t == token)`: where `token` first sits in
      `table`. */
  function Position(table: seq<string>, token: string): (r: Option<nat>)
    ensures r.Some? ==> r.value < |table|
  {
    PositionFrom(table, token, 0)
  }

  /** Looking from `k` on finds the first occurrence at or after `k`. */
  lemma {:induction false} PositionFromFinds(table: seq<string>, token: string, k: nat)
    requires k <= |table|
    ensures PositionFrom(table, token, k).Some? <==> token in table[k..]
    ensures PositionFrom(table, token, k).Some? ==>
      var j := PositionFrom(table, token, k).value;
      table[j] == token && token !in table[k..j]
    decreases |table| - k
  {
    if k < |table| && table[k] != token {
      PositionFromFinds(table, token, k + 1);
      assert table[k..] == [table[k]] + table[k + 1..];
      if PositionFrom(table, token, k).Some? {
        var j := PositionFrom(table, token, k).value;
        assert table[k..j] == [table[k]] + table[k + 1..j];
      }
    }
  }

  /** `position` finds exactly the tokens of the table. */
  lemma PositionFinds(table: seq<string>, token: string)
    ensures Position(table, token).Some? <==> token in table
  {
    PositionFromFinds(table, token, 0);
    assert table[0..] == table;
  }

  /** What `position` finds is the first occurrence of the token. */
  lemma PositionHolds(table: seq<string>, token: string)
    requires Position(table, token).Some?
    ensures table[Position(table, token).value] == token
    ensures token !in table[..Position(table, token).value]
  {
    PositionFromFinds(table, token, 0);
    assert table[0..Position(table, token).value] == table[..Position(table, token).value];
  }

  /** The entries field `f` accepts: those `position` finds in the field's
      table, and for the time field those `Time::from_str` parses. */
  predicate Accepts(f: Field, token: string) {
    match f
    case NoteField => Position(NOTE, token).Some?
    case TransposeField => Position(TRANSPOSE, token).Some?
    case AccentField => Position(ACCENT, token).Some?
    case SlideField => Position(SLIDE, token).Some?
    case TimeField => FromStr(token).Ok?
  }

  /** The position of a field line in the text, which is also the order in
      which a step's entries are checked. */
  function Rank(f: Field): (k: nat)
    ensures k < 5
  {
    match f
    case NoteField => 0
    case TransposeField => 1
    case AccentField => 2
    case SlideField => 3
    case TimeField => 4
  }

  /** Step `i` from its five entries, checked in field order; the first
      entry its field does not accept is the error. */
  function ParseStep(cols: Columns, i: nat): (r: Result<Step, ParseError>)
    requires i < 16
    ensures r.Ok? ==> ValidStep(r.value)
    ensures r.Err? ==> r.error.WrongToken? && r.error.position == i
  {
    match Position(NOTE, cols.note[i])
    case None => Err(WrongToken(NoteField, i, cols.note[i]))
    case Some(note) =>
      match Position(TRANSPOSE, cols.transpose[i])
      case None => Err(WrongToken(TransposeField, i, cols.transpose[i]))
      case Some(transpose) =>
        match Position(ACCENT, cols.accent[i])
        case None => Err(WrongToken(AccentField, i, cols.accent[i]))
        case Some(accent) =>
          match Position(SLIDE, cols.slide[i])
          case None => Err(WrongToken(SlideField, i, cols.slide[i]))
          case Some(slide) =>
            match FromStr(cols.time[i])
            case Err(_) => Err(WrongToken(TimeField, i, cols.time[i]))
            case Ok(time) => Ok(Step(note, transpose, accent == 1, slide == 1, time))
  }

  /** A step parses exactly when each of its five entries is accepted by
      its field. */
  lemma ParseStepAccepted(cols: Columns, i: nat)
    requires i < 16
    ensures ParseStep(cols, i).Ok? <==> forall f :: Accepts(f, ColumnOf(cols, f)[i])
  {
    if ParseStep(cols, i).Ok? {
      forall f ensures Accepts(f, ColumnOf(cols, f)[i]) {
        match f
        case NoteField => assert ColumnOf(cols, f) == cols.note;
        case TransposeField => assert ColumnOf(cols, f) == cols.transpose;
        case AccentField => assert ColumnOf(cols, f) == cols.accent;
        case SlideField => assert ColumnOf(cols, f) == cols.slide;
        case TimeField => assert ColumnOf(cols, f) == cols.time;
      }
    } else {
      ParseStepRejected(cols, i);
    }
  }

  /** A parsed step names, in each field's table, the entry it was read
      from. */
  lemma ParseStepEntries(cols: Columns, i: nat)
    requires i < 16 && ParseStep(cols, i).Ok?
    ensures var s := ParseStep(cols, i).value;
      && NOTE[s.note] == cols.note[i]
      && TRANSPOSE[s.transpose] == cols.transpose[i]
      && ACCENT[FlagValue(s.accent)] == cols.accent[i]
      && SLIDE[FlagValue(s.slide)] == cols.slide[i]
      && FromStr(cols.time[i]) == Ok(s.time)
  {
    PositionHolds(NOTE, cols.note[i]);
    PositionHolds(TRANSPOSE, cols.transpose[i]);
    PositionHolds(ACCENT, cols.accent[i]);
    PositionHolds(SLIDE, cols.slide[i]);
  }

  /** A step that does not parse reports the entry of the field it names. */
  lemma ParseStepReportsEntry(cols: Columns, i: nat)
    requires i < 16 && ParseStep(cols, i).Err?
    ensures var e := ParseStep(cols, i).error;
      e.token == ColumnOf(cols, e.field)[i]
  {
    var e := ParseStep(cols, i).error;
    if Position(NOTE, cols.note[i]).None? {
      assert e.field == NoteField && ColumnOf(cols, NoteField) == cols.note;
    } else if Position(TRANSPOSE, cols.transpose[i]).None? {
      assert e.field == TransposeField && ColumnOf(cols, TransposeField) == cols.transpose;
    } else if Position(ACCENT, cols.accent[i]).None? {
      assert e.field == AccentField && ColumnOf(cols, AccentField) == cols.accent;
    } else if Position(SLIDE, cols.slide[i]).None? {
      assert e.field == SlideField && ColumnOf(cols, SlideField) == cols.slide;
    } else {
      assert e.field == TimeField && ColumnOf(cols, TimeField) == cols.time;
    }
  }

  /** The field a step that does not parse names rejects its entry. */
  lemma ParseStepRejected(cols: Columns, i: nat)
    requires i < 16 && ParseStep(cols, i).Err?
    ensures var e := ParseStep(cols, i).error;
      !Accepts(e.field, ColumnOf(cols, e.field)[i])
  {
    var e := ParseStep(cols, i).error;
    if Position(NOTE, cols.note[i]).None? {
      assert e.field == NoteField && ColumnOf(cols, NoteField) == cols.note;
    } else if Position(TRANSPOSE, cols.transpose[i]).None? {
      assert e.field == TransposeField && ColumnOf(cols, TransposeField) == cols.transpose;
    } else if Position(ACCENT, cols.accent[i]).None? {
      assert e.field == AccentField && ColumnOf(cols, AccentField) == cols.accent;
    } else if Position(SLIDE, cols.slide[i]).None? {
      assert e.field == SlideField && ColumnOf(cols, SlideField) == cols.slide;
    } else {
      assert e.field == TimeField && ColumnOf(cols, TimeField) == cols.time;
    }
  }

  /** The field a step that does not parse reports is the first, in
      checking order, that rejects its entry. */
  lemma ParseStepRejectedFirst(cols: Columns, i: nat)
    requires i < 16 && ParseStep(cols, i).Err?
    ensures var e := ParseStep(cols, i).error;
      forall g :: Rank(g) < Rank(e.field) ==> Accepts(g, ColumnOf(cols, g)[i])
  {
    var e := ParseStep(cols, i).error;
    assert ColumnOf(cols, NoteField) == cols.note && ColumnOf(cols, TransposeField) == cols.transpose;
    assert ColumnOf(cols, AccentField) == cols.accent && ColumnOf(cols, SlideField) == cols.slide;
    if Position(NOTE, cols.note[i]).None? {
      assert e.field == NoteField;
    } else if Position(TRANSPOSE, cols.transpose[i]).None? {
      assert e.field == TransposeField;
    } else if Position(ACCENT, cols.accent[i]).None? {
      assert e.field == AccentField;
    } else if Position(SLIDE, cols.slide[i]).None? {
      assert e.field == SlideField;
    } else {
      assert e.field == TimeField;
    }
  }

  /** The first step from `k` on whose entries do not parse; 16 when all
      of them do. */
  function FirstBadStep(cols: Columns, k: nat): (r: nat)
    requires k <= 16
    ensures k <= r <= 16
    ensures r < 16 ==> ParseStep(cols, r).Err?
    ensures forall j :: k <= j < r ==> ParseStep(cols, j).Ok?
    decreases 16 - k
  {
    if k == 16 then k
    else if ParseStep(cols, k).Err? then k
    else FirstBadStep(cols, k + 1)
  }

  /** The sixteen steps, or the error of the first step that fails. */
  function ParseSteps(cols: Columns): (r: Result<Steps, ParseError>)
    ensures r.Ok? <==> forall j :: 0 <= j < 16 ==> ParseStep(cols, j).Ok?
    ensures r.Ok? ==> forall j :: 0 <= j < 16 ==> r.value[j] == ParseStep(cols, j).value
    ensures r.Ok? ==> forall j :: 0 <= j < 16 ==> ValidStep(r.value[j])
    ensures r.Err? ==>
      && r.error.WrongToken?
      && r.error.position < 16
      && (forall j :: 0 <= j < r.error.position ==> ParseStep(cols, j).Ok?)
      && ParseStep(cols, r.error.position) == Err(r.error)
  {
    var k := FirstBadStep(cols, 0);
    if k < 16 then Err(ParseStep(cols, k).error)
    else
      var steps: Steps := seq(16, j requires 0 <= j < 16 && ParseStep(cols, j).Ok? => ParseStep(cols, j).value);
      Ok(steps)
  }

  /** The five field lines, read in order with `split_entries`. */
  function ReadColumns(lines: seq<string>): Result<Columns, ParseError> {
    var (note, r1) := FieldEntries(lines, NoteField);
    if note.Err? then Err(note.error)
    else
      var (transpose, r2) := FieldEntries(r1, TransposeField);
      if transpose.Err? then Err(transpose.error)
      else
        var (accent, r3) := FieldEntries(r2, AccentField);
        if accent.Err? then Err(accent.error)
        else
          var (slide, r4) := FieldEntries(r3, SlideField);
          if slide.Err? then Err(slide.error)
          else
            var (time, _) := FieldEntries(r4, TimeField);
            if time.Err? then Err(time.error)
            else Ok(Columns(note.value, transpose.value, accent.value, slide.value, time.value))
  }

  /** The pattern from the field lines, with the metadata already read. */
  function ParseBody(lines: seq<string>, active: u8, triplet: bool): (r: Result<Pattern, ParseError>)
    ensures r.Ok? ==> ValidPattern(r.value)
  {
    match ReadColumns(lines)
    case Err(e) => Err(e)
    case Ok(cols) =>
      match ParseSteps(cols)
      case Err(e) => Err(e)
      case Ok(steps) => Ok(Pattern(triplet, active, steps))
  }

  /** The pattern from the lines after the title. */
  function ParseAfterTitle(lines: seq<string>): (r: Result<Pattern, ParseError>)
    ensures r.Ok? ==> ValidPattern(r.value)
  {
    var (meta, rest) := NextSignificant(lines);
    match ReadMetadata(meta)
    case Err(e) => Err(e)
    case Ok((active, triplet)) => ParseBody(rest, active, triplet)
  }

  /** `string_to_pattern` on the lines of the text. */
  function ParseLines(lines: seq<string>): (r: Result<Pattern, ParseError>)
    ensures r.Ok? ==> ValidPattern(r.value)
  {
    var (title, rest) := NextSignificant(lines);
    if title != TD3_PATTERN then Err(BadTitle(title))
    else ParseAfterTitle(rest)
  }

  /** `string_to_pattern`: a pattern, every note and transpose inside its
      table, or the first error met. */
  function Parse(text: string): (r: Result<Pattern, ParseError>)
    ensures r.Ok? ==> ValidPattern(r.value)
  {
    ParseLines(SplitLines(text))
  }

  /** `string_to_pattern`: the title, the metadata and the five field lines
      are read in turn, then the steps are filled in one by one; the first
      error met is returned. */
  method StringToPattern(text: string) returns (r: Result<Pattern, ParseError>)
    ensures r == Parse(text)
  {
    var pattern := DefaultPattern();
    var lines := new Lines(text);
    ghost var all := lines.rest;
    var line := NextNonemptyLine(lines);
    if line != TD3_PATTERN {
      return Err(BadTitle(line));
    }
    ghost var afterTitle := lines.rest;
    line := NextNonemptyLine(lines);
    var meta := ReadMetadata(line);
    if meta.Err? {
      return Err(meta.error);
    }
    pattern := pattern.(active_steps := meta.value.0, triplet := meta.value.1);
    assert ParseLines(all) == ParseBody(lines.rest, meta.value.0, meta.value.1);
    var cols := ReadFieldLines(lines);
    if cols.Err? {
      return Err(cols.error);
    }
    r := FillSteps(cols.value, pattern);
  }

  /** The five `split_entries` calls of `string_to_pattern`, stopping at the
      first error. */
  method ReadFieldLines(lines: Lines) returns (r: Result<Columns, ParseError>)
    modifies lines
    ensures r == ReadColumns(old(lines.rest))
  {
    var note := SplitEntries(lines, NoteField);
    if note.Err? {
      return Err(note.error);
    }
    var transpose := SplitEntries(lines, TransposeField);
    if transpose.Err? {
      return Err(transpose.error);
    }
    var accent := SplitEntries(lines, AccentField);
    if accent.Err? {
      return Err(accent.error);
    }
    var slide := SplitEntries(lines, SlideField);
    if slide.Err? {
      return Err(slide.error);
    }
    var time := SplitEntries(lines, TimeField);
    if time.Err? {
      return Err(time.error);
    }
    return Ok(Columns(note.value, transpose.value, accent.value, slide.value, time.value));
  }

  /** The loop of `string_to_pattern` over the sixteen steps: each step of
      `pattern` is set from its entries, and the first entry its table does
      not hold ends the loop with an error. */
  method FillSteps(cols: Columns, pattern: Pattern) returns (r: Result<Pattern, ParseError>)
    ensures ParseSteps(cols).Err? ==> r == Err(ParseSteps(cols).error)
    ensures ParseSteps(cols).Ok? ==> r == Ok(pattern.(step := ParseSteps(cols).value))
  {
    var filled := pattern;
    for i := 0 to 16
      invariant filled.active_steps == pattern.active_steps && filled.triplet == pattern.triplet
      invariant forall j :: 0 <= j < i ==> ParseStep(cols, j).Ok? && filled.step[j] == ParseStep(cols, j).value
    {
      var step := ParseStep(cols, i);
      if step.Err? {
        assert FirstBadStep(cols, 0) == i;
        return Err(step.error);
      }
      filled := filled.(step := filled.step[i := step.value]);
    }
    assert filled.step == ParseSteps(cols).value;
    return Ok(filled);
  }
}
