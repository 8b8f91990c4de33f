/** JSON texts as section 2 to 7 of RFC 8259 define them, read from UTF-16 units. */
module JsonTexts {
  import opened WideStrings
  import opened Formatting

  const QUOTE: Wchar := 0x22
  const ESCAPE: Wchar := 0x5C
  const COMMA: Wchar := 0x2C
  const COLON: Wchar := 0x3A
  const BEGIN_ARRAY: Wchar := 0x5B
  const END_ARRAY: Wchar := 0x5D
  const BEGIN_OBJECT: Wchar := 0x7B
  const END_OBJECT: Wchar := 0x7D
  const MINUS: Wchar := 0x2D
  const PLUS: Wchar := 0x2B
  const POINT: Wchar := 0x2E

  /** A number is mantissa * 10^exponent; an object keeps its members in order. */
  datatype Json =
    | Null
    | Bool(value: bool)
    | Number(mantissa: int, exponent: int)
    | String(text: seq<Unit>)
    | Array(elements: seq<Json>)
    | Object(members: seq<(seq<Unit>, Json)>)

  predicate IsWhitespace(u: Unit) { u == 0x20 || u == 0x09 || u == 0x0A || u == 0x0D }

  function Skip(s: seq<Unit>): (rest: seq<Unit>)
    ensures |rest| <= |s|
    ensures rest != [] ==> !IsWhitespace(rest[0])
  {
    if s != [] && IsWhitespace(s[0]) then Skip(s[1..]) else s
  }

  // ---- strings (section 7) ----

  function HexValue(u: Unit): Option<nat> {
    if IsDigit(u) then Some(u - 0x30)
    else if 0x41 <= u <= 0x46 then Some(u - 0x41 + 10)
    else if 0x61 <= u <= 0x66 then Some(u - 0x61 + 10)
    else None
  }

  /** The unit after a reverse solidus, for the two-character escapes. */
  function SimpleEscape(u: Unit): Option<Unit> {
    if u == QUOTE || u == ESCAPE || u == SLASH then Some(u)
    else if u == 0x62 then Some(0x08)
    else if u == 0x66 then Some(0x0C)
    else if u == 0x6E then Some(0x0A)
    else if u == 0x72 then Some(0x0D)
    else if u == 0x74 then Some(0x09)
    else None
  }

  /** Four hexadecimal digits. */
  function HexUnit(s: seq<Unit>): Option<Unit>
    requires |s| == 4
  {
    match (HexValue(s[0]), HexValue(s[1]), HexValue(s[2]), HexValue(s[3]))
    case (Some(a), Some(b), Some(c), Some(d)) =>
      var u := ((a * 16 + b) * 16 + c) * 16 + d;
      if u < 0x1_0000 then Some(u) else None
    case _ => None
  }

  /** One character of a string: the unit it stands for and what follows. */
  function ParseChar(s: seq<Unit>): (r: Option<(Unit, seq<Unit>)>)
    requires s != [] && s[0] != QUOTE
    ensures r.Some? ==> |r.value.1| < |s|
  {
    if s[0] != ESCAPE then
      if s[0] < 0x20 then None else Some((s[0], s[1..]))
    else if |s| < 2 then None
    else if s[1] == 0x75 then
      if |s| < 6 then None
      else match HexUnit(s[2..6]) case None => None case Some(u) => Some((u, s[6..]))
    else match SimpleEscape(s[1]) case None => None case Some(u) => Some((u, s[2..]))
  }

  /** The characters up to the closing quotation mark. */
  function ParseChars(s: seq<Unit>): (r: Option<(seq<Unit>, seq<Unit>)>)
    ensures r.Some? ==> |r.value.1| < |s|
    decreases |s|
  {
    if s == [] then None
    else if s[0] == QUOTE then Some(([], s[1..]))
    else match ParseChar(s)
      case None => None
      case Some((u, more)) =>
        match ParseChars(more)
        case None => None
        case Some((text, rest)) => Some(([u] + text, rest))
  }

  // ---- numbers (section 6) ----

  /** How many digits `s` begins with. */
  function CountDigits(s: seq<Unit>): (n: nat)
    ensures n <= |s| && AllDigits(s[..n]) && (n < |s| ==> !IsDigit(s[n]))
  {
    if s == [] || !IsDigit(s[0]) then 0
    else
      var n := CountDigits(s[1..]);
      assert s[..n + 1] == [s[0]] + s[1..][..n];
      n + 1
  }

  function Signed(negative: bool, digits: seq<Unit>): int
    requires AllDigits(digits)
  {
    if negative then -(DigitsValue(digits) as int) else DigitsValue(digits)
  }

  /** The digits after the decimal point, if there is one; at least one digit must follow it. */
  function ParseFraction(s: seq<Unit>): (r: Option<(seq<Unit>, seq<Unit>)>)
    ensures r.Some? ==> |r.value.1| <= |s| && AllDigits(r.value.0)
  {
    if s == [] || s[0] != POINT then Some(([], s))
    else
      var n := CountDigits(s[1..]);
      if n == 0 then None else Some((s[1..][..n], s[1..][n..]))
  }

  function ParseExponent(s: seq<Unit>): (r: Option<(int, seq<Unit>)>)
    ensures r.Some? ==> |r.value.1| <= |s|
  {
    if s == [] || (s[0] != 0x65 && s[0] != 0x45) then Some((0, s))
    else
      var signed := |s| > 1 && (s[1] == MINUS || s[1] == PLUS);
      var digits := if signed then s[2..] else s[1..];
      var n := CountDigits(digits);
      if n == 0 then None
      else
        Some((Signed(signed && s[1] == MINUS, digits[..n]), digits[n..]))
  }

  /** The number after its sign. */
  function ParseUnsigned(s: seq<Unit>, negative: bool): (r: Option<(Json, seq<Unit>)>)
    ensures r.Some? ==> |r.value.1| < |s|
  {
    var n := CountDigits(s);
    if n == 0 || (n > 1 && s[0] == ZERO) then None
    else match ParseFraction(s[n..])
      case None => None
      case Some((fraction, more)) =>
        match ParseExponent(more)
        case None => None
        case Some((exponent, rest)) =>
          Some((Number(Signed(negative, s[..n] + fraction), exponent - |fraction|), rest))
  }

  function ParseNumber(s: seq<Unit>): (r: Option<(Json, seq<Unit>)>)
    ensures r.Some? ==> |r.value.1| < |s|
  {
    if s != [] && s[0] == MINUS then ParseUnsigned(s[1..], true) else ParseUnsigned(s, false)
  }

  // ---- values (sections 2 to 5) ----

  function ParseLiteral(s: seq<Unit>, name: Wide, value: Json): (r: Option<(Json, seq<Unit>)>)
    requires name != []
    ensures r.Some? ==> |r.value.1| < |s|
  {
    if name <= s then Some((value, s[|name|..])) else None
  }

  function ParseValue(s: seq<Unit>): (r: Option<(Json, seq<Unit>)>)
    ensures r.Some? ==> |r.value.1| < |s|
    decreases |s|, 0
  {
    if s == [] then None
    else if s[0] == QUOTE then
      match ParseChars(s[1..]) case None => None case Some((text, rest)) => Some((String(text), rest))
    else if s[0] == BEGIN_ARRAY then
      var inner := Skip(s[1..]);
      if inner != [] && inner[0] == END_ARRAY then Some((Array([]), inner[1..]))
      else match ParseElements(inner) case None => None case Some((elements, rest)) => Some((Array(elements), rest))
    else if s[0] == BEGIN_OBJECT then
      var inner := Skip(s[1..]);
      if inner != [] && inner[0] == END_OBJECT then Some((Object([]), inner[1..]))
      else match ParseMembers(inner) case None => None case Some((members, rest)) => Some((Object(members), rest))
    else if s[0] == 0x74 then ParseLiteral(s, W("true"), Bool(true))
    else if s[0] == 0x66 then ParseLiteral(s, W("false"), Bool(false))
    else if s[0] == 0x6E then ParseLiteral(s, W("null"), Null)
    else ParseNumber(s)
  }

  /** The elements of an array up to its closing bracket; the text begins with the first. */
  function ParseElements(s: seq<Unit>): (r: Option<(seq<Json>, seq<Unit>)>)
    ensures r.Some? ==> |r.value.1| < |s|
    decreases |s|, 1
  {
    match ParseValue(s)
    case None => None
    case Some((value, more)) =>
      var after := Skip(more);
      if after == [] then None
      else if after[0] == END_ARRAY then Some(([value], after[1..]))
      else if after[0] != COMMA then None
      else match ParseElements(Skip(after[1..]))
        case None => None
        case Some((values, rest)) => Some(([value] + values, rest))
  }

  /** One member of an object: its name and value. */
  function ParseMember(s: seq<Unit>): (r: Option<((seq<Unit>, Json), seq<Unit>)>)
    ensures r.Some? ==> |r.value.1| < |s|
    decreases |s|, 1
  {
    if s == [] || s[0] != QUOTE then None
    else match ParseChars(s[1..])
      case None => None
      case Some((name, more)) =>
        var colon := Skip(more);
        if colon == [] || colon[0] != COLON then None
        else match ParseValue(Skip(colon[1..]))
          case None => None
          case Some((value, rest)) => Some(((name, value), rest))
  }

  /** The members of an object up to its closing brace; the text begins with the first. */
  function ParseMembers(s: seq<Unit>): (r: Option<(seq<(seq<Unit>, Json)>, seq<Unit>)>)
    ensures r.Some? ==> |r.value.1| < |s|
    decreases |s|, 2
  {
    match ParseMember(s)
    case None => None
    case Some((member, more)) =>
      var after := Skip(more);
      if after == [] then None
      else if after[0] == END_OBJECT then Some(([member], after[1..]))
      else if after[0] != COMMA then None
      else match ParseMembers(Skip(after[1..]))
        case None => None
        case Some((members, rest)) => Some(([member] + members, rest))
  }

  /** A whole JSON text. */
  function ParseText(s: seq<Unit>): Option<Json> {
    match ParseValue(Skip(s))
    case None => None
    case Some((value, rest)) => if Skip(rest) == [] then Some(value) else None
  }
}
