/** The vocabulary of the human-readable pattern text: the title, the
    labels of the metadata and field lines, the token tables the steps are
    written with, and how one rendered row of sixteen entries is laid out. */
module TextFormat {
  import opened Base
  import opened Strings
  import opened TimeTable

  const TD3_PATTERN := "TD-3 Pattern"
  const ACTIVE_STEPS := "Active Steps"
  const TRIPLET := "Triplet Time"
  const NOTE_S := "Note:      "
  const TRANSPOSE_S := "Transpose: "
  const ACCENT_S := "Accent:    "
  const SLIDE_S := "Slide:     "
  const TIME := "Tie/Rest:  "

  /** The head of the commented-out row of step numbers. */
  const STEP_S := "// Step:   "

  /** The last line of the rendered text, a comment. */
  const FOOTER := "// Read 'Sequencer Quirks' " + "in README.md about Tie/Rest " + "and pattern execution"

  /** Note names, indexed by `Step.note`; 12 is the upper C. */
  const NOTE: seq<string> := ["C", "C#", "D", "D#", "E", "F", "F#", "G", "G#", "A", "A#", "B", "C^"]

  /** Octave names, indexed by `Step.transpose`: down, normal, up. */
  const TRANSPOSE: seq<string> := ["DN", "", "UP"]

  /** Accent names, indexed by the flag: off, on. */
  const ACCENT: seq<string> := ["", "AC"]

  /** Slide names, indexed by the flag: off, on. */
  const SLIDE: seq<string> := ["", "SL"]

  /** The five per-step field lines, in the order they are written and read. */
  datatype Field = NoteField | TransposeField | AccentField | SlideField | TimeField

  /** The label a field line starts with, padding included. */
  function Label(f: Field): (l: string)
    ensures |l| == 11 && !IsWhitespace(l[0])
  {
    match f
    case NoteField => NOTE_S
    case TransposeField => TRANSPOSE_S
    case AccentField => ACCENT_S
    case SlideField => SLIDE_S
    case TimeField => TIME
  }

  /** The comment closing each field line, with the two spaces before it. */
  function Legend(f: Field): (l: string)
    ensures |l| > 4 && l[..4] == "  //"
  {
    match f
    case NoteField => "  // C -C# .. B -C^"
    case TransposeField => "  // DN-  -UP"
    case AccentField => "  //   -AC"
    case SlideField => "  //   -SL"
    case TimeField => "  //   -TI-RE"
  }

  /** `format!("{:2}", s)`: left-aligned in a field of width two. */
  function Pad2(s: string): (r: string)
    ensures |r| == if |s| < 2 then 2 else |s|
    ensures r[..|s|] == s
    ensures forall i :: |s| <= i < |r| ==> r[i] == ' '
  {
    if |s| < 2 then s + seq(2 - |s|, _ => ' ') else s
  }

  /** `format!("{:02?}", n)`: decimal, zero-padded to two digits. */
  function TwoDigits(n: nat): (r: string)
    ensures |r| >= 2 && AllDigits(r)
  {
    if n < 10 then "0" + Decimal(n) else Decimal(n)
  }

  /** What one iteration of the rendering loop appends to a row: the
      separator (none before the first entry, a comma after that), a space,
      and the entry. */
  function Cell(i: nat, item: string): string {
    (if i == 0 then "" else ",") + " " + item
  }

  /** A row after `n` iterations of the rendering loop. */
  function RowText(items: seq<string>, n: nat): string
    requires n <= |items|
  {
    if n == 0 then "" else RowText(items, n - 1) + Cell(n - 1, items[n - 1])
  }

  /** One iteration of the rendering loop extends a row by one cell. */
  lemma RowPush(head: string, items: seq<string>, i: nat, sep: string)
    requires i < |items| && sep == (if i == 0 then "" else ",")
    ensures head + RowText(items, i) + (sep + " " + items[i]) == head + RowText(items, i + 1)
  {
  }

  /** The characters the tables are written with. */
  predicate TokenChar(c: char) {
    'A' <= c <= 'Z' || c == '#' || c == '^'
  }

  /** A table entry: at most two token characters. */
  predicate Token(t: string) {
    |t| <= 2 && forall i :: 0 <= i < |t| ==> TokenChar(t[i])
  }

  /** No two entries of a table are equal, so a position names one entry. */
  predicate Distinct(table: seq<string>) {
    forall i, j :: 0 <= i < j < |table| ==> table[i] != table[j]
  }

  /** The trimmed `Debug` text of a time class: the token it is read back from. */
  function TimeToken(t: Time): (tok: string)
    ensures Token(tok) && Pad2(tok) == Debug(t)
    ensures FromStr(tok) == Ok(t)
  {
    match t
    case Normal => assert Pad2("") == "  "; ""
    case Tie => "TI"
    case Rest => "RE"
    case TieRest => "TR"
  }

  /** Every table holds tokens only, and no entry twice. */
  lemma TablesWellFormed()
    ensures forall k :: 0 <= k < |NOTE| ==> Token(NOTE[k])
    ensures forall k :: 0 <= k < |TRANSPOSE| ==> Token(TRANSPOSE[k])
    ensures forall k :: 0 <= k < |ACCENT| ==> Token(ACCENT[k])
    ensures forall k :: 0 <= k < |SLIDE| ==> Token(SLIDE[k])
    ensures Distinct(NOTE) && Distinct(TRANSPOSE) && Distinct(ACCENT) && Distinct(SLIDE)
  {
  }

  /** A character other than the comma and the space occurs in a row only
      if it occurs in one of its entries. */
  lemma {:induction false} RowTextAvoids(items: seq<string>, n: nat, c: char)
    requires n <= |items| && c != ',' && c != ' '
    requires forall j :: 0 <= j < |items| ==> c !in items[j]
    ensures c !in RowText(items, n)
  {
    if n > 0 {
      RowTextAvoids(items, n - 1, c);
    }
  }

  /** A padded token holds nothing but token characters and spaces. */
  lemma PaddedTokenAvoids(tok: string, c: char)
    requires Token(tok) && !TokenChar(c) && c != ' '
    ensures c !in Pad2(tok)
  {
    var r := Pad2(tok);
    forall i | 0 <= i < |r| ensures r[i] != c {
      if i < |tok| { assert r[i] == r[..|tok|][i]; }
    }
  }

  /** A padded token behind a space, with any whitespace after it, trims
      back to the token. */
  lemma TrimPaddedToken(tok: string, post: string)
    requires Token(tok) && AllWhitespace(post)
    ensures Trim(" " + Pad2(tok) + post) == tok
  {
    var r := Pad2(tok);
    var pad := r[|tok|..];
    assert r == tok + pad;
    assert AllWhitespace(pad + post) by {
      forall i | 0 <= i < |pad + post| ensures IsWhitespace((pad + post)[i]) {
        if i < |pad| { assert (pad + post)[i] == r[|tok| + i]; }
      }
    }
    assert " " + Pad2(tok) + post == " " + tok + (pad + post);
    assert AllWhitespace(" ");
    TrimPadded(tok, " ", pad + post);
  }

  /** Splitting a row at its commas gives back its cells without the
      separators: a space followed by the entry. */
  lemma {:induction false} RowSplit(items: seq<string>, n: nat)
    requires 1 <= n <= |items|
    requires forall j :: 0 <= j < |items| ==> ',' !in items[j]
    ensures Split(RowText(items, n), ',') == seq(n, j requires 0 <= j < n => " " + items[j])
  {
    var last := " " + items[n - 1];
    if n == 1 {
      assert RowText(items, 1) == last;
      assert IndexOf(last, ',').None?;
    } else {
      var init := RowText(items, n - 1);
      assert RowText(items, n) == init + [','] + last;
      SplitAppend(init, ',', last);
      RowSplit(items, n - 1);
    }
  }

  /** Trimming the end of a row followed by whitespace only touches its
      last cell. */
  lemma RowTrimEnd(items: seq<string>, n: nat, pad: string)
    requires 2 <= n <= |items|
    ensures TrimEnd(RowText(items, n) + pad)
      == RowText(items, n - 1) + [','] + TrimEnd(" " + items[n - 1] + pad)
  {
    var init := RowText(items, n - 1);
    var last := " " + items[n - 1] + pad;
    assert RowText(items, n) + pad == init + ([','] + last);
    assert !IsWhitespace(([','] + last)[0]);
    TrimEndAppend(init, [','] + last);
    TrimEndBehind(',', last);
  }

  /** A row followed by whitespace, trimmed at the end and split at its
      commas, gives its cells, the last one trimmed at the end. */
  lemma RowSplitTrimmed(items: seq<string>, n: nat, pad: string)
    requires 2 <= n <= |items|
    requires forall j :: 0 <= j < |items| ==> ',' !in items[j]
    requires ',' !in pad
    ensures Split(TrimEnd(RowText(items, n) + pad), ',')
      == seq(n - 1, j requires 0 <= j < n - 1 => " " + items[j]) + [TrimEnd(" " + items[n - 1] + pad)]
  {
    var last := " " + items[n - 1] + pad;
    var t := TrimEnd(last);
    assert ',' !in last;
    assert ',' !in t by {
      assert t == last[..|t|];
    }
    RowTrimEnd(items, n, pad);
    SplitAppend(RowText(items, n - 1), ',', t);
    RowSplit(items, n - 1);
  }
}
