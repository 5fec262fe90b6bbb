/** `Notetime`: an earlier name of the time class, kept in its own file with
    the same four variants, discriminants, tokens and conversions. Each
    conversion is stated here against its `Time` counterpart through the
    variant-for-variant correspondence `AsTime`. */
module NotetimeTable {
  import opened Base
  import opened Strings
  import TimeTable

  datatype Notetime = Tie | Normal | TieRest | Rest

  /** The variant of `Time` with the same name. */
  function AsTime(n: Notetime): (t: TimeTable.Time)
    ensures FromTime(t) == n
  {
    match n
    case Tie => TimeTable.Tie
    case Normal => TimeTable.Normal
    case TieRest => TimeTable.TieRest
    case Rest => TimeTable.Rest
  }

  /** The variant of `Notetime` with the same name. */
  function FromTime(t: TimeTable.Time): Notetime {
    match t
    case Tie => Tie
    case Normal => Normal
    case TieRest => TieRest
    case Rest => Rest
  }

  /** `n as u8`: the declared discriminant. */
  function Code(n: Notetime): (c: u8)
    ensures c == TimeTable.Code(AsTime(n))
  {
    match n
    case Tie => 0      // 0b00
    case Normal => 1   // 0b01
    case TieRest => 2  // 0b10
    case Rest => 3     // 0b11
  }

  /** `Notetime::from_str` */
  function FromStr(s: string): (r: Result<Notetime, ()>)
    ensures r.Ok? <==> TimeTable.IsToken(s)
    ensures r.Ok? ==> TimeTable.FromStr(s) == Ok(AsTime(r.value))
  {
    if s == "" then Ok(Normal)
    else if s == "TI" then Ok(Tie)
    else if s == "RE" then Ok(Rest)
    else if s == "TR" then Ok(TieRest)
    else Err(())
  }

  /** The `Debug` rendering. */
  function Debug(n: Notetime): (s: string)
    ensures s == TimeTable.Debug(AsTime(n))
  {
    match n
    case Normal => "  "
    case Tie => "TI"
    case Rest => "RE"
    case TieRest => "TR"
  }

  /** `Notetime::try_from(v: u8)` */
  function TryFromU8(v: u8): (r: Result<Notetime, ()>)
    ensures r.Ok? <==> v <= 3
    ensures r.Ok? ==> Code(r.value) == v
  {
    if v == Code(Normal) then Ok(Normal)
    else if v == Code(Tie) then Ok(Tie)
    else if v == Code(Rest) then Ok(Rest)
    else if v == Code(TieRest) then Ok(TieRest)
    else Err(())
  }

  /** `Notetime::try_from(v: u16)` */
  function TryFromU16(v: u16): (r: Result<Notetime, ()>)
    ensures r.Ok? <==> v <= 3
    ensures r.Ok? ==> Code(r.value) == v
  {
    if v == Code(Normal) then Ok(Normal)
    else if v == Code(Tie) then Ok(Tie)
    else if v == Code(Rest) then Ok(Rest)
    else if v == Code(TieRest) then Ok(TieRest)
    else Err(())
  }

  /** The correspondence is one to one. */
  lemma AsTimeBijective(n: Notetime, t: TimeTable.Time)
    ensures AsTime(n) == t <==> n == FromTime(t)
  {
  }

  /** The integer conversions undo the discriminant cast, and agree with
      `Time`'s. */
  lemma TryFromInvertsCode(n: Notetime, v: u16)
    ensures TryFromU8(Code(n)) == Ok(n) && TryFromU16(Code(n)) == Ok(n)
    ensures TryFromU16(v).Ok? ==> TimeTable.TryFromU16(v) == Ok(AsTime(TryFromU16(v).value))
  {
  }

  /** The `Debug` text is two characters and, trimmed, parses back to the
      same variant. */
  lemma {:induction false} DebugRoundTrip(n: Notetime)
    ensures |Debug(n)| == 2
    ensures FromStr(Trim(Debug(n))) == Ok(n)
  {
    TimeTable.DebugRoundTrip(AsTime(n));
    var r := FromStr(Trim(Debug(n)));
    AsTimeBijective(r.value, AsTime(n));
  }
}
