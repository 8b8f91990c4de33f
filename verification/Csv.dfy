/** CSV texts as section 2 of RFC 4180 defines them, read from UTF-16 units.  A quoted field may hold
    any unit, and an unquoted one any but the four that delimit. */
module CsvTexts {
  import opened WideStrings

  const QUOTE: Wchar := 0x22
  const COMMA: Wchar := 0x2C
  const CR: Wchar := 0x0D
  const LF: Wchar := 0x0A

  type Fields = seq<seq<Unit>>

  /** A quoted field after its opening quote: a doubled quote stands for one. */
  function ParseQuoted(s: seq<Unit>): (r: Option<(seq<Unit>, seq<Unit>)>)
    ensures r.Some? ==> |r.value.1| < |s|
    decreases |s|
  {
    if s == [] then None
    else if s[0] == QUOTE && (|s| == 1 || s[1] != QUOTE) then Some(([], s[1..]))
    else
      match ParseQuoted(if s[0] == QUOTE then s[2..] else s[1..])
      case None => None
      case Some((text, rest)) => Some(([s[0]] + text, rest))
  }

  predicate IsText(u: Unit) { u != QUOTE && u != COMMA && u != CR && u != LF }

  function CountText(s: seq<Unit>): (n: nat)
    ensures n <= |s| && (forall i :: 0 <= i < n ==> IsText(s[i])) && (n < |s| ==> !IsText(s[n]))
  {
    if s == [] || !IsText(s[0]) then 0 else 1 + CountText(s[1..])
  }

  function ParseField(s: seq<Unit>): (r: Option<(seq<Unit>, seq<Unit>)>)
    ensures r.Some? ==> |r.value.1| <= |s|
  {
    if s != [] && s[0] == QUOTE then ParseQuoted(s[1..])
    else Some((s[..CountText(s)], s[CountText(s)..]))
  }

  /** One record up to its line break or the end of the text. */
  function ParseRecord(s: seq<Unit>): (r: Option<(Fields, seq<Unit>)>)
    ensures r.Some? && s != [] ==> |r.value.1| < |s|
    ensures r.Some? ==> |r.value.1| <= |s|
    decreases |s|
  {
    match ParseField(s)
    case None => None
    case Some((field, more)) =>
      if more == [] then Some(([field], []))
      else if more[0] == COMMA then
        match ParseRecord(more[1..])
        case None => None
        case Some((fields, rest)) => Some(([field] + fields, rest))
      else if |more| > 1 && more[0] == CR && more[1] == LF then Some(([field], more[2..]))
      else None
  }

  /** A whole text: its records; the last line break is optional. */
  function ParseText(s: seq<Unit>): Option<seq<Fields>>
    decreases |s|
  {
    if s == [] then Some([])
    else
      match ParseRecord(s)
      case None => None
      case Some((fields, rest)) =>
        match ParseText(rest)
        case None => None
        case Some(records) => Some([fields] + records)
  }
}
