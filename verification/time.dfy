/** The step time class: which of the two sequencer flags, tie and rest, a
    step carries. The discriminant of each variant is also its two-bit wire
    code: bit 0 is the tie bit, bit 1 the rest bit. */
module TimeTable {
  import opened Base
  import opened Strings

  datatype Time = Tie | Normal | TieRest | Rest

  /** `t as u8` (and `t as u16`): the declared discriminant. */
  function Code(t: Time): (c: u8)
    ensures c <= 3
    ensures c == 0 <==> t == Tie
    ensures c == 1 <==> t == Normal
    ensures c == 2 <==> t == TieRest
    ensures c == 3 <==> t == Rest
  {
    match t
    case Tie => 0      // 0b00
    case Normal => 1   // 0b01
    case TieRest => 2  // 0b10
    case Rest => 3     // 0b11
  }

  /** The tokens `FromStr` accepts. */
  predicate IsToken(s: string) {
    s == "" || s == "TI" || s == "RE" || s == "TR"
  }

  /** `Time::from_str` */
  function FromStr(s: string): (r: Result<Time, ()>)
    ensures r.Ok? <==> IsToken(s)
    ensures r == Ok(Normal) <==> s == ""
    ensures r == Ok(Tie) <==> s == "TI"
    ensures r == Ok(Rest) <==> s == "RE"
    ensures r == Ok(TieRest) <==> s == "TR"
  {
    if s == "" then Ok(Normal)
    else if s == "TI" then Ok(Tie)
    else if s == "RE" then Ok(Rest)
    else if s == "TR" then Ok(TieRest)
    else Err(())
  }

  /** The `Debug` rendering: always two characters, Normal as two spaces. */
  function Debug(t: Time): (s: string)
    ensures |s| == 2
  {
    match t
    case Normal => "  "
    case Tie => "TI"
    case Rest => "RE"
    case TieRest => "TR"
  }

  /** `Time::try_from(v: u8)`: the variant whose discriminant is `v`. */
  function TryFromU8(v: u8): (r: Result<Time, ()>)
    ensures r.Ok? <==> v <= 3
    ensures r.Ok? ==> Code(r.value) == v
  {
    if v == Code(Normal) then Ok(Normal)
    else if v == Code(Tie) then Ok(Tie)
    else if v == Code(Rest) then Ok(Rest)
    else if v == Code(TieRest) then Ok(TieRest)
    else Err(())
  }

  /** `Time::try_from(v: u16)`, the conversion the binary decoder uses. */
  function TryFromU16(v: u16): (r: Result<Time, ()>)
    ensures r.Ok? <==> v <= 3
    ensures r.Ok? ==> Code(r.value) == v
  {
    if v == Code(Normal) then Ok(Normal)
    else if v == Code(Tie) then Ok(Tie)
    else if v == Code(Rest) then Ok(Rest)
    else if v == Code(TieRest) then Ok(TieRest)
    else Err(())
  }

  /** Distinct variants have distinct discriminants. */
  lemma CodeInjective(a: Time, b: Time)
    ensures Code(a) == Code(b) ==> a == b
  {
  }

  /** Both integer conversions undo the discriminant cast. */
  lemma TryFromInvertsCode(t: Time)
    ensures TryFromU8(Code(t)) == Ok(t)
    ensures TryFromU16(Code(t)) == Ok(t)
  {
  }

  /** The `Debug` text, trimmed, parses back to the same variant. */
  lemma DebugRoundTrip(t: Time)
    ensures FromStr(Trim(Debug(t))) == Ok(t)
  {
    match t
    case Normal => TrimPadded("", "  ", "");
    case Tie => TrimPadded("TI", "", "");
    case Rest => TrimPadded("RE", "", "");
    case TieRest => TrimPadded("TR", "", "");
  }

  /** The code the decoder builds from a tie bit and a rest bit,
      `tie + 2 * rest`, always converts, and selects the variant whose two
      flags are those bits. */
  lemma TimeFromBits(tie: nat, rest: nat)
    requires tie <= 1 && rest <= 1
    ensures TryFromU16(tie + 2 * rest).Ok?
    ensures TryFromU16(tie + 2 * rest).value == (
      if tie == 1 && rest == 1 then Rest
      else if rest == 1 then TieRest
      else if tie == 1 then Normal
      else Tie)
    ensures Bit(Code(TryFromU16(tie + 2 * rest).value), 0) == tie
    ensures Bit(Code(TryFromU16(tie + 2 * rest).value), 1) == rest
  {
    var c := tie + 2 * rest;
    assert Bit(c, 1) == Bit(c / 2, 0);
  }
}
