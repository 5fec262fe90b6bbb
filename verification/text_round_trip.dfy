/** Reading back what `pattern_to_string` writes: for every pattern whose
    notes and transpositions lie inside their tables, `string_to_pattern`
    of `pattern_to_string` is the same pattern. */
module TextRoundTrip {
  import opened Base
  import opened Strings
  import opened TimeTable
  import opened PatternModel
  import opened TextFormat
  import opened TextRender
  import opened TextParse

  /** A trimmed line without a slash is its own significant part. */
  lemma SignificantOfPlain(s: string)
    requires '/' !in s && Trimmed(s)
    ensures Significant(s) == s
  {
    assert AllWhitespace(s[|s|..]);
    TrimEndUnique(s, |s|);
    assert s[..|s|] == s;
    TrimStartNoop(s);
  }

  /** A line that starts with `//` has nothing significant. */
  lemma SignificantOfComment(s: string)
    requires |s| >= 2 && s[0] == '/' && s[1] == '/'
    ensures Significant(s) == ""
  {
    assert FindDoubleSlash(s) == Some(0);
    assert s[..0] == "";
  }

  /** Every entry of a field row is a token of the field's table padded to
      width two. */
  lemma ItemsPadTokens(p: Pattern, f: Field)
    requires ValidPattern(p)
    ensures forall j :: 0 <= j < 16 ==> Token(Tokens(p, f)[j]) && Items(p, f)[j] == Pad2(Tokens(p, f)[j])
  {
    TablesWellFormed();
    forall j | 0 <= j < 16 ensures Token(Tokens(p, f)[j]) && Items(p, f)[j] == Pad2(Tokens(p, f)[j]) {
      assert ValidStep(p.step[j]);
    }
  }

  /** No entry of a field row holds `c` when no token can. */
  lemma ItemsAvoid(p: Pattern, f: Field, c: char)
    requires ValidPattern(p) && !TokenChar(c) && c != ' '
    ensures forall j :: 0 <= j < 16 ==> c !in Items(p, f)[j]
  {
    ItemsPadTokens(p, f);
    forall j | 0 <= j < 16 ensures c !in Items(p, f)[j] {
      PaddedTokenAvoids(Tokens(p, f)[j], c);
    }
  }

  /** The labels hold no `//` and end with a space. */
  lemma LabelShape(f: Field)
    ensures Label(f)[10] == ' '
    ensures forall i :: 0 <= i < 10 ==> !SlashPairAt(Label(f), i)
  {
  }

  /** In a line made of a head without `//` that ends with a space, a row
      without a slash and a legend that opens with two spaces, no `//`
      starts before the legend's third character. */
  lemma NoPairBeforeLegend(head: string, row: string, legend: string, i: nat)
    requires |head| >= 1 && head[|head| - 1] == ' '
    requires forall i :: 0 <= i < |head| - 1 ==> !SlashPairAt(head, i)
    requires '/' !in row
    requires |legend| >= 2 && legend[..2] == "  "
    requires i < |head| + |row| + 2
    ensures !SlashPairAt(head + row + legend, i)
  {
    var line := head + row + legend;
    if i < |head| - 1 {
      assert line[i] == head[i] && line[i + 1] == head[i + 1];
      assert !SlashPairAt(head, i);
    } else if i == |head| - 1 {
      assert line[i] == head[|head| - 1];
    } else if i < |head| + |row| {
      assert line[i] == row[i - |head|];
    } else {
      assert line[i] == legend[..2][i - |head| - |row|];
    }
  }

  /** In such a line, with a legend that opens with two spaces and `//`, the
      comment starts at the legend's `//`. */
  lemma CommentAfterRow(head: string, row: string, legend: string)
    requires |head| >= 1 && head[|head| - 1] == ' '
    requires forall i :: 0 <= i < |head| - 1 ==> !SlashPairAt(head, i)
    requires '/' !in row
    requires |legend| >= 4 && legend[..4] == "  //"
    ensures FindDoubleSlash(head + row + legend) == Some(|head| + |row| + 2)
  {
    var line := head + row + legend;
    var k := |head| + |row| + 2;
    assert legend[..2] == "  ";
    assert line[k] == legend[..4][2] && line[k + 1] == legend[..4][3];
    forall i | 0 <= i < k ensures !SlashPairAt(line, i) {
      NoPairBeforeLegend(head, row, legend, i);
    }
    FindDoubleSlashAt(line, k);
  }

  /** Such a line's significant part is the head and the row with its end
      trimmed, when the head starts with something other than whitespace
      and the row holds a comma. */
  lemma SignificantOfRowLine(head: string, row: string, legend: string)
    requires |head| >= 1 && head[|head| - 1] == ' ' && !IsWhitespace(head[0])
    requires forall i :: 0 <= i < |head| - 1 ==> !SlashPairAt(head, i)
    requires '/' !in row && ',' in row
    requires |legend| >= 4 && legend[..4] == "  //"
    ensures Significant(head + row + legend) == head + TrimEnd(row + "  ")
  {
    var line := head + row + legend;
    var k := |head| + |row| + 2;
    CommentAfterRow(head, row, legend);
    assert line[..k] == head + (row + "  ");
    var j :| 0 <= j < |row| && row[j] == ',';
    assert (row + "  ")[j] == ',';
    TrimEndAppend(head, row + "  ");
    TrimStartNoop(head + TrimEnd(row + "  "));
  }

  /** A field line's significant part: the label and the row, up to the two
      spaces before the legend's `//`, with the end trimmed. */
  lemma FieldLineSignificant(p: Pattern, f: Field)
    requires ValidPattern(p)
    ensures Significant(FieldLine(p, f)) == Label(f) + TrimEnd(RowText(Items(p, f), 16) + "  ")
  {
    var row := RowText(Items(p, f), 16);
    ItemsAvoid(p, f, '/');
    RowTextAvoids(Items(p, f), 16, '/');
    LabelShape(f);
    var init := RowText(Items(p, f), 15);
    assert row[|init|] == ',';
    SignificantOfRowLine(Label(f), row, Legend(f));
  }

  /** The entries written as a row: each token padded to width two. */
  function PaddedRow(tokens: seq<string>): (items: seq<string>)
    ensures |items| == |tokens|
  {
    seq(|tokens|, j requires 0 <= j < |tokens| => Pad2(tokens[j]))
  }

  /** A cell before the last: a space and the padded token. */
  lemma TrimCell(tok: string)
    requires Token(tok)
    ensures Trim(" " + Pad2(tok)) == tok
  {
    assert " " + Pad2(tok) + "" == " " + Pad2(tok);
    TrimPaddedToken(tok, "");
  }

  /** The last cell, already trimmed at the end together with the spaces
      that followed the row. */
  lemma TrimLastCell(tok: string)
    requires Token(tok)
    ensures Trim(TrimEnd(" " + Pad2(tok) + "  ")) == tok
  {
    var cell := " " + Pad2(tok) + "  ";
    assert Trim(cell) == tok by {
      assert AllWhitespace("  ");
      TrimPaddedToken(tok, "  ");
    }
    TrimAfterTrimEnd(cell);
  }

  /** A row of sixteen padded tokens, trimmed at the end and split at its
      commas, gives sixteen cells that trim back to the tokens. */
  lemma CellsOfPaddedRow(tokens: seq<string>)
    requires |tokens| == 16 && forall j :: 0 <= j < 16 ==> Token(tokens[j])
    ensures var vals := Split(TrimEnd(RowText(PaddedRow(tokens), 16) + "  "), ',');
      |vals| == 16 && forall j :: 0 <= j < 16 ==> Trim(vals[j]) == tokens[j]
  {
    var items := PaddedRow(tokens);
    forall j | 0 <= j < 16 ensures ',' !in items[j] {
      PaddedTokenAvoids(tokens[j], ',');
    }
    RowSplitTrimmed(items, 16, "  ");
    var vals := Split(TrimEnd(RowText(items, 16) + "  "), ',');
    forall j | 0 <= j < 16 ensures Trim(vals[j]) == tokens[j] {
      if j < 15 {
        TrimCell(tokens[j]);
      } else {
        TrimLastCell(tokens[j]);
      }
    }
  }

  /** A row of sixteen padded tokens behind its label, with the end trimmed,
      reads back as the tokens. */
  lemma EntriesOfPaddedRow(f: Field, tokens: seq<string>)
    requires |tokens| == 16 && forall j :: 0 <= j < 16 ==> Token(tokens[j])
    ensures var r := Entries(Label(f) + TrimEnd(RowText(PaddedRow(tokens), 16) + "  "), f);
      r.Ok? && r.value == tokens
  {
    var rest := TrimEnd(RowText(PaddedRow(tokens), 16) + "  ");
    var line := Label(f) + rest;
    assert line[..|Label(f)|] == Label(f) && line[|Label(f)|..] == rest;
    CellsOfPaddedRow(tokens);
  }

  /** Field `f`'s line of the rendered text reads back as the tokens of the
      pattern's steps in that field. */
  lemma FieldLineEntries(p: Pattern, f: Field)
    requires ValidPattern(p)
    ensures var r := Entries(Significant(FieldLine(p, f)), f);
      r.Ok? && r.value == Tokens(p, f)
  {
    ItemsPadTokens(p, f);
    assert Items(p, f) == PaddedRow(Tokens(p, f));
    FieldLineSignificant(p, f);
    EntriesOfPaddedRow(f, Tokens(p, f));
  }

  /** The metadata line after the number reads back as the second label
      and the value. */
  lemma ScanTripletPart(active: string, n: u8, name: string, value: string)
    requires ':' !in name
    ensures ScanTriplet(active, n, ", " + name + ": " + value) == Some(Metadata(active, n, name, value))
  {
    var after := ", " + name + ": " + value;
    var second := after[2..];
    assert second == name + ": " + value;
    assert second[..|name|] == name;
    IndexOfAt(second, ':', |name|);
    assert second[|name| + 1..] == " " + value;
  }

  /** The metadata line after the first colon reads back the number, then
      what follows it. */
  lemma ScanActivePart(active: string, digits: string, after: string)
    requires |digits| >= 1 && AllDigits(digits) && DigitsValue(digits) < 0x100
    requires after == [] || !IsDigit(after[0])
    ensures ScanActive(active, " " + digits + after) == ScanTriplet(active, DigitsValue(digits), after)
  {
    var rest := " " + digits + after;
    var number := digits + after;
    assert rest == " " + number;
    assert rest[1..] == number;
    LeadingDigitsOf(digits, after);
    assert number[..|digits|] == digits;
    assert number[|digits|..] == after;
  }

  /** A first label without a colon is read up to the colon after it. */
  lemma ScanFirstLabel(head: string, rest: string)
    requires ':' !in head
    ensures ScanMetadata(head + ":" + rest) == ScanActive(head, rest)
  {
    var line := head + ":" + rest;
    assert line[..|head|] == head;
    IndexOfAt(line, ':', |head|);
    assert line[|head| + 1..] == rest;
  }

  /** The metadata line split after its first colon. */
  lemma Regroup(head: string, digits: string, name: string, value: string)
    ensures head + ": " + digits + ", " + name + ": " + value
      == head + ":" + (" " + digits + (", " + name + ": " + value))
  {
    var front := head + ": " + digits;
    AppendAssoc(front, ", ", name);
    AppendAssoc(front, ", " + name, ": ");
    AppendAssoc(front, ", " + name + ": ", value);
    assert ": " == ":" + " ";
    AppendAssoc(head, ":", " ");
    AppendAssoc(head + ":", " ", digits);
    AppendAssoc(head + ":", " " + digits, ", " + name + ": " + value);
  }

  /** A metadata line written as `<head>: <digits>, <label>: <value>`,
      with labels free of colons, scans back into its four parts. */
  lemma ScanOfWritten(head: string, digits: string, name: string, value: string)
    requires ':' !in head && ':' !in name
    requires |digits| >= 1 && AllDigits(digits) && DigitsValue(digits) < 0x100
    ensures ScanMetadata(head + ": " + digits + ", " + name + ": " + value)
      == Some(Metadata(head, DigitsValue(digits), name, value))
  {
    var after := ", " + name + ": " + value;
    Regroup(head, digits, name, value);
    ScanFirstLabel(head, " " + digits + after);
    ScanActivePart(head, digits, after);
    ScanTripletPart(head, DigitsValue(digits), name, value);
  }

  /** The rendered metadata line reads back as the pattern's active step
      count and triplet flag. */
  lemma MetaLineReads(p: Pattern)
    ensures ReadMetadata(MetaLine(p)) == Ok((p.active_steps, p.triplet))
  {
    DecimalRoundTrip(p.active_steps);
    ScanOfWritten(ACTIVE_STEPS, Decimal(p.active_steps), TRIPLET, OnOff(p.triplet));
  }

  /** A line followed by a non-empty line that `str::lines` leaves alone,
      without a line feed in between, is left alone too. */
  lemma PlainJoin(a: string, b: string)
    requires '\n' !in a && PlainLine(b) && |b| > 0
    ensures PlainLine(a + b)
  {
    assert (a + b)[|a + b| - 1] == b[|b| - 1];
  }

  /** The row of step numbers ends with a digit and holds no line feed. */
  lemma StepLinePlain(p: Pattern)
    ensures PlainLine(StepLine(p))
  {
    var numbers := StepNumbers(p);
    var init := RowText(numbers, 15);
    assert '\n' !in init by {
      forall j | 0 <= j < 16 ensures '\n' !in numbers[j] {
        assert AllDigits(TwoDigits(j + 1));
      }
      RowTextAvoids(numbers, 15, '\n');
    }
    var last := Cell(15, TwoDigits(16));
    assert PlainLine(last) by {
      var digits := TwoDigits(16);
      assert AllDigits(digits) && IsDigit(digits[|digits| - 1]);
      assert last[|last| - 1] == digits[|digits| - 1];
    }
    assert '\n' !in STEP_S;
    PlainJoin(STEP_S + init, last);
    assert StepLine(p) == STEP_S + init + last;
  }

  /** Labels and legends are single lines. */
  lemma LabelLegendPlain(f: Field)
    ensures '\n' !in Label(f) && PlainLine(Legend(f))
  {
  }

  /** A field line ends with its legend and holds no line feed. */
  lemma FieldLinePlain(p: Pattern, f: Field)
    requires ValidPattern(p)
    ensures PlainLine(FieldLine(p, f))
  {
    var row := RowText(Items(p, f), 16);
    assert '\n' !in row by {
      ItemsAvoid(p, f, '\n');
      RowTextAvoids(Items(p, f), 16, '\n');
    }
    LabelLegendPlain(f);
    PlainJoin(Label(f) + row, Legend(f));
  }

  /** The metadata line ends with `On` or `Off` and holds no line feed. */
  lemma MetaLinePlain(p: Pattern)
    ensures PlainLine(MetaLine(p))
  {
    var digits := Decimal(p.active_steps);
    assert '\n' !in digits by {
      forall i | 0 <= i < |digits| ensures digits[i] != '\n' {
        assert IsDigit(digits[i]);
      }
    }
    PlainJoin(ACTIVE_STEPS + ": " + digits + ", " + TRIPLET + ": ", OnOff(p.triplet));
  }

  /** The title and the footer are single lines. */
  lemma LiteralLinesPlain()
    ensures PlainLine(TD3_PATTERN) && PlainLine("") && PlainLine(FOOTER)
  {
    var a, b, c := "// Read 'Sequencer Quirks' ", "in README.md about Tie/Rest ", "and pattern execution";
    assert '\n' !in a && '\n' !in b && '\n' !in c;
    assert FOOTER == a + b + c;
    assert FOOTER[|FOOTER| - 1] == c[|c| - 1];
  }

  /** Every rendered line is one `str::lines` leaves alone. */
  lemma RenderedLinesPlain(p: Pattern, i: nat)
    requires ValidPattern(p) && i < 10
    ensures PlainLine(RenderLines(p)[i])
  {
    var lines := RenderLines(p);
    if i == 0 || i == 2 || i == 9 {
      LiteralLinesPlain();
    } else if i == 1 {
      MetaLinePlain(p);
    } else if i == 3 {
      StepLinePlain(p);
    } else {
      FieldLinePlain(p, [NoteField, TransposeField, AccentField, SlideField, TimeField][i - 4]);
    }
  }

  /** `str::lines` splits the rendered text back into its ten lines. */
  lemma RenderedLines(p: Pattern)
    requires ValidPattern(p)
    ensures SplitLines(Render(p)) == RenderLines(p)
  {
    var lines := RenderLines(p);
    forall i | 0 <= i < |lines| ensures PlainLine(lines[i]) {
      RenderedLinesPlain(p, i);
    }
    SplitJoinLines(lines);
    assert Render(p) == JoinLines(lines);
  }

  /** The title is its own significant part. */
  lemma TitleSignificant()
    ensures Significant(TD3_PATTERN) == TD3_PATTERN
  {
    SignificantOfPlain(TD3_PATTERN);
  }

  /** The metadata line holds no comment and no surrounding blanks. */
  lemma MetaSignificant(p: Pattern)
    ensures Significant(MetaLine(p)) == MetaLine(p)
  {
    var digits := Decimal(p.active_steps);
    var head := ACTIVE_STEPS + ": " + digits + ", " + TRIPLET + ": ";
    var value := OnOff(p.triplet);
    assert '/' !in digits by {
      forall i | 0 <= i < |digits| ensures digits[i] != '/' {
        assert IsDigit(digits[i]);
      }
    }
    assert '/' !in head + value;
    assert (head + value)[0] == 'A';
    assert (head + value)[|head + value| - 1] == value[|value| - 1];
    SignificantOfPlain(head + value);
  }

  /** The empty line and the commented-out step numbers are blank to the
      parser. */
  lemma BlankLines(p: Pattern)
    ensures !Nonblank("") && !Nonblank(StepLine(p))
  {
    assert Significant("") == "" by {
      assert FindDoubleSlash("") == None;
    }
    SignificantOfComment(StepLine(p));
  }

  /** In a table without repeats, `position` finds each entry at its own
      index. */
  lemma PositionOfEntry(table: seq<string>, k: nat)
    requires Distinct(table) && k < |table|
    ensures Position(table, table[k]) == Some(k)
  {
    PositionFinds(table, table[k]);
    PositionHolds(table, table[k]);
  }

  /** The five rendered columns, as the parser splits them out of the text. */
  function RenderedColumns(p: Pattern): (cols: Columns)
    requires ValidPattern(p)
    ensures forall f :: ColumnOf(cols, f) == Tokens(p, f)
  {
    Columns(Tokens(p, NoteField), Tokens(p, TransposeField), Tokens(p, AccentField),
            Tokens(p, SlideField), Tokens(p, TimeField))
  }

  /** Each rendered step parses back to itself. */
  lemma ParseStepRendered(p: Pattern, i: nat)
    requires ValidPattern(p) && i < 16
    ensures ParseStep(RenderedColumns(p), i) == Ok(p.step[i])
  {
    var s := p.step[i];
    var cols := RenderedColumns(p);
    TablesWellFormed();
    assert cols.note[i] == NOTE[s.note];
    PositionOfEntry(NOTE, s.note);
    assert cols.transpose[i] == TRANSPOSE[s.transpose];
    PositionOfEntry(TRANSPOSE, s.transpose);
    assert cols.accent[i] == ACCENT[FlagValue(s.accent)];
    PositionOfEntry(ACCENT, FlagValue(s.accent));
    assert cols.slide[i] == SLIDE[FlagValue(s.slide)];
    PositionOfEntry(SLIDE, FlagValue(s.slide));
    assert cols.time[i] == TimeToken(s.time);
  }

  /** The rendered columns parse back to the pattern's sixteen steps. */
  lemma ParseStepsRendered(p: Pattern)
    requires ValidPattern(p)
    ensures ParseSteps(RenderedColumns(p)) == Ok(p.step)
  {
    var cols := RenderedColumns(p);
    forall j | 0 <= j < 16 ensures ParseStep(cols, j) == Ok(p.step[j]) {
      ParseStepRendered(p, j);
    }
    assert ParseSteps(cols).value == p.step;
  }

  /** A field line read after lines the parser skips gives the field's
      tokens, and reading goes on after it. */
  lemma ReadFieldLine(p: Pattern, f: Field, lines: seq<string>, n: nat)
    requires ValidPattern(p) && n < |lines| && lines[n] == FieldLine(p, f)
    requires forall j :: 0 <= j < n ==> !Nonblank(lines[j])
    ensures FieldEntries(lines, f) == (Ok(ColumnOf(RenderedColumns(p), f)), lines[n + 1..])
  {
    FieldLineSignificant(p, f);
    NextSignificantAt(lines, n);
    FieldLineEntries(p, f);
  }

  /** The columns are read field after field, each from the lines the
      previous one left. */
  lemma ReadColumnsInOrder(lines: seq<string>, cols: Columns, l1: seq<string>, l2: seq<string>,
                           l3: seq<string>, l4: seq<string>)
    requires FieldEntries(lines, NoteField) == (Ok(cols.note), l1)
    requires FieldEntries(l1, TransposeField) == (Ok(cols.transpose), l2)
    requires FieldEntries(l2, AccentField) == (Ok(cols.accent), l3)
    requires FieldEntries(l3, SlideField) == (Ok(cols.slide), l4)
    requires FieldEntries(l4, TimeField).0 == Ok(cols.time)
    ensures ReadColumns(lines) == Ok(cols)
  {
  }

  /** A field line at index `k` of the lines left to read. */
  lemma ReadFieldLineAt(p: Pattern, f: Field, lines: seq<string>, k: nat)
    requires ValidPattern(p) && k < |lines| && lines[k] == FieldLine(p, f)
    ensures FieldEntries(lines[k..], f) == (Ok(ColumnOf(RenderedColumns(p), f)), lines[k + 1..])
  {
    ReadFieldLine(p, f, lines[k..], 0);
    assert lines[k..][1..] == lines[k + 1..];
  }

  /** The first field line comes after the empty line and the step numbers. */
  lemma ReadFirstFieldLine(p: Pattern, lines: seq<string>)
    requires ValidPattern(p) && |lines| >= 3
    requires lines[0] == "" && lines[1] == StepLine(p) && lines[2] == FieldLine(p, NoteField)
    ensures FieldEntries(lines, NoteField) == (Ok(RenderedColumns(p).note), lines[3..])
  {
    forall j | 0 <= j < 2 ensures !Nonblank(lines[j]) {
      BlankLines(p);
    }
    ReadFieldLine(p, NoteField, lines, 2);
  }

  /** The five field lines, after the blank line and the step numbers, read
      back as the rendered columns. */
  lemma ReadRenderedColumns(p: Pattern, lines: seq<string>)
    requires ValidPattern(p) && |lines| >= 7
    requires lines[0] == "" && lines[1] == StepLine(p)
    requires lines[2] == FieldLine(p, NoteField) && lines[3] == FieldLine(p, TransposeField)
    requires lines[4] == FieldLine(p, AccentField) && lines[5] == FieldLine(p, SlideField)
    requires lines[6] == FieldLine(p, TimeField)
    ensures ReadColumns(lines) == Ok(RenderedColumns(p))
  {
    ReadFirstFieldLine(p, lines);
    ReadFieldLineAt(p, TransposeField, lines, 3);
    ReadFieldLineAt(p, AccentField, lines, 4);
    ReadFieldLineAt(p, SlideField, lines, 5);
    ReadFieldLineAt(p, TimeField, lines, 6);
    ReadColumnsInOrder(lines, RenderedColumns(p), lines[3..], lines[4..], lines[5..], lines[6..]);
  }

  /** The parser's path to a pattern: the title, the metadata, the five
      columns and the sixteen steps, each read from what the previous step
      left. */
  lemma ParseLinesInOrder(lines: seq<string>, p: Pattern, meta: string, cols: Columns,
                          l1: seq<string>, l2: seq<string>)
    requires ValidPattern(p)
    requires NextSignificant(lines) == (TD3_PATTERN, l1)
    requires NextSignificant(l1) == (meta, l2)
    requires ReadMetadata(meta) == Ok((p.active_steps, p.triplet))
    requires ReadColumns(l2) == Ok(cols)
    requires ParseSteps(cols) == Ok(p.step)
    ensures ParseLines(lines) == Ok(p)
  {
  }

  /** The title and the metadata line lead the lines; what follows them is
      left for the columns. */
  lemma ReadHead(p: Pattern, lines: seq<string>)
    requires |lines| >= 2 && lines[0] == TD3_PATTERN && lines[1] == MetaLine(p)
    ensures NextSignificant(lines) == (TD3_PATTERN, lines[1..])
    ensures NextSignificant(lines[1..]) == (MetaLine(p), lines[2..])
  {
    TitleSignificant();
    NextSignificantAt(lines, 0);
    MetaSignificant(p);
    NextSignificantAt(lines[1..], 0);
    assert lines[1..][1..] == lines[2..];
  }

  /** The rendered lines parse back to the pattern. */
  lemma ParseRenderedLines(p: Pattern, lines: seq<string>)
    requires ValidPattern(p) && |lines| >= 9
    requires lines[0] == TD3_PATTERN && lines[1] == MetaLine(p)
    requires lines[2] == "" && lines[3] == StepLine(p)
    requires lines[4] == FieldLine(p, NoteField) && lines[5] == FieldLine(p, TransposeField)
    requires lines[6] == FieldLine(p, AccentField) && lines[7] == FieldLine(p, SlideField)
    requires lines[8] == FieldLine(p, TimeField)
    ensures ParseLines(lines) == Ok(p)
  {
    ReadHead(p, lines);
    MetaLineReads(p);
    ReadRenderedColumns(p, lines[2..]);
    ParseStepsRendered(p);
    ParseLinesInOrder(lines, p, MetaLine(p), RenderedColumns(p), lines[1..], lines[2..]);
  }

  /** `string_to_pattern` reads back what `pattern_to_string` writes: every
      valid pattern survives the text round trip. */
  lemma ParseRendered(p: Pattern)
    requires ValidPattern(p)
    ensures Parse(Render(p)) == Ok(p)
  {
    RenderedLines(p);
    ParseRenderedLines(p, RenderLines(p));
  }
}
