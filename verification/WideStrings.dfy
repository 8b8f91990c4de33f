/** NUL-terminated UTF-16 strings and the string helpers the program is built on
    (src/utils.c).  A string value is the sequence of units before the terminator,
    so its units are nonzero; a buffer is an array of units that holds one. */
module WideStrings {

  datatype Option<+T> = None | Some(value: T)

  type Unit = u: nat | u < 0x1_0000
  type Wchar = u: Unit | u != 0 witness 1
  type Wide = seq<Wchar>

  const MAX_PATH := 260

  function Min(a: nat, b: nat): nat { if a < b then a else b }

  function CompareNumbers(left: nat, right: nat): int {
    if left < right then -1 else if left > right then 1 else 0
  }

  /** The unit of a character of the basic plane, as the compiler encodes a literal. */
  function UnitOf(c: char): Wchar { if 1 <= c as int < 0x1_0000 then c as int else 0xFFFD }

  /** The wide string of a literal. */
  function W(s: string): (w: Wide)
    ensures |w| == |s|
  {
    seq(|s|, i requires 0 <= i < |s| => UnitOf(s[i]))
  }

  /** The string a buffer holds: everything before its first NUL. */
  function Content(buffer: seq<Unit>): (s: Wide)
    ensures |s| <= |buffer|
  {
    if buffer == [] || buffer[0] == 0 then [] else [buffer[0]] + Content(buffer[1..])
  }

  lemma {:induction false} ContentIs(buffer: seq<Unit>, n: nat)
    requires n < |buffer| && buffer[n] == 0
    requires forall i :: 0 <= i < n ==> buffer[i] != 0
    ensures Content(buffer) == buffer[..n]
  {
    if n == 0 {
    } else {
      ContentIs(buffer[1..], n - 1);
      assert buffer[..n] == [buffer[0]] + buffer[1..][..n - 1];
    }
  }

  lemma {:induction false} ContentLength(buffer: seq<Unit>)
    ensures Content(buffer) == buffer[..|Content(buffer)|]
    ensures |Content(buffer)| < |buffer| ==> buffer[|Content(buffer)|] == 0
    ensures 0 in buffer ==> |Content(buffer)| < |buffer|
  {
    if buffer == [] || buffer[0] == 0 {
    } else {
      ContentLength(buffer[1..]);
      var n := |Content(buffer[1..])|;
      assert buffer[..n + 1] == [buffer[0]] + buffer[1..][..n];
    }
  }

  lemma TextInBuffer(buffer: seq<Unit>, text: Wide)
    requires |text| < |buffer| && buffer[..|text|] == text && buffer[|text|] == 0
    ensures Content(buffer) == text
  {
    forall i | 0 <= i < |text| ensures buffer[i] != 0 {
      assert buffer[i] == buffer[..|text|][i];
    }
    ContentIs(buffer, |text|);
  }

  /** What is left of a string stored in a buffer of `capacity` units. */
  function Truncated(s: Wide, capacity: nat): (t: Wide)
    ensures capacity > 0 ==> |t| == Min(|s|, capacity - 1) && t <= s
    ensures capacity > |s| ==> t == s
  {
    if capacity == 0 then [] else s[..Min(|s|, capacity - 1)]
  }

  method CopyWstring(destination: array?<Unit>, source: array?<Unit>)
    requires source != null ==> 0 in source[..]
    modifies destination
    ensures destination != null && destination.Length > 0 ==>
      Content(destination[..]) ==
        if source == null then [] else Truncated(old(Content(source[..])), destination.Length)
  {
    if destination == null || destination.Length == 0 {
      return;
    }
    if source == null {
      destination[0] := 0;
      return;
    }
    ghost var text := Content(source[..]);
    ContentLength(source[..]);
    var index := 0;
    while index + 1 < destination.Length && source[index] != 0
      invariant 0 <= index <= |text| && index < destination.Length
      invariant forall i :: index <= i < source.Length ==> source[i] == old(source[i])
      invariant destination[..index] == text[..index]
    {
      destination[index] := source[index];
      index := index + 1;
    }
    destination[index] := 0;
    assert destination[..][..index] == text[..index];
    assert forall i :: 0 <= i < index ==> destination[..][i] == text[i];
    ContentIs(destination[..], index);
    assert index == Min(|text|, destination.Length - 1);
  }

  // ---- string_contains_insensitive ----

  /** `needle` occurs in `value` at `at`, unit by unit after folding. */
  predicate OccursAt(fold: Unit -> Unit, value: Wide, needle: Wide, at: int) {
    0 <= at <= |value| - |needle| &&
    forall i :: 0 <= i < |needle| ==> fold(value[at + i]) == fold(needle[i])
  }

  ghost predicate ContainsFolded(fold: Unit -> Unit, value: Wide, needle: Wide) {
    exists at :: OccursAt(fold, value, needle, at)
  }

  method StringContainsInsensitive(fold: Unit -> Unit, value: Wide, needle: Wide) returns (found: bool)
    ensures found <==> ContainsFolded(fold, value, needle)
  {
    if |needle| == 0 {
      assert OccursAt(fold, value, needle, 0);
      return true;
    }
    if |needle| > |value| {
      return false;
    }
    var index := 0;
    while index + |needle| <= |value|
      invariant 0 <= index <= |value| - |needle| + 1
      invariant forall at :: 0 <= at < index ==> !OccursAt(fold, value, needle, at)
    {
      var offset := 0;
      while offset < |needle| && fold(value[index + offset]) == fold(needle[offset])
        invariant 0 <= offset <= |needle|
        invariant forall i :: 0 <= i < offset ==> fold(value[index + i]) == fold(needle[i])
      {
        offset := offset + 1;
      }
      if offset == |needle| {
        assert OccursAt(fold, value, needle, index);
        return true;
      }
      index := index + 1;
    }
    return false;
  }

  // ---- path_basename ----

  const BACKSLASH: Wchar := 0x5C
  const SLASH: Wchar := 0x2F

  predicate IsSeparator(u: Unit) { u == BACKSLASH || u == SLASH }

  /** The part after the last separator, of either kind. */
  function PathBasename(path: Wide): (name: Wide)
    ensures |name| <= |path| && name == path[|path| - |name|..]
    ensures forall i :: 0 <= i < |name| ==> !IsSeparator(name[i])
    ensures |name| < |path| ==> IsSeparator(path[|path| - |name| - 1])
  {
    if path == [] || IsSeparator(path[|path| - 1]) then []
    else PathBasename(path[..|path| - 1]) + [path[|path| - 1]]
  }

  // ---- CompareStringOrdinal, ignoring case ----

  /** Ordinal comparison of two strings folded unit by unit: negative, zero or positive. */
  function CompareOrdinal(fold: Unit -> Unit, left: Wide, right: Wide): (r: int)
    ensures -1 <= r <= 1
  {
    if left == [] then (if right == [] then 0 else -1)
    else if right == [] then 1
    else if fold(left[0]) < fold(right[0]) then -1
    else if fold(left[0]) > fold(right[0]) then 1
    else CompareOrdinal(fold, left[1..], right[1..])
  }

  lemma {:induction false} OrdinalReflects(fold: Unit -> Unit, a: Wide, b: Wide)
    ensures CompareOrdinal(fold, b, a) == -CompareOrdinal(fold, a, b)
    ensures a == b ==> CompareOrdinal(fold, a, b) == 0
  {
    if a == [] || b == [] {
    } else {
      OrdinalReflects(fold, a[1..], b[1..]);
    }
  }

  lemma {:induction false} OrdinalTransitive(fold: Unit -> Unit, a: Wide, b: Wide, c: Wide)
    requires CompareOrdinal(fold, a, b) <= 0 && CompareOrdinal(fold, b, c) <= 0
    ensures CompareOrdinal(fold, a, c) <= 0
  {
    if a == [] || b == [] || c == [] || !(fold(a[0]) == fold(b[0]) == fold(c[0])) {
    } else {
      OrdinalTransitive(fold, a[1..], b[1..], c[1..]);
    }
  }

  /** Equality that ignores case holds exactly between strings that fold to the same units. */
  lemma {:induction false} OrdinalEqual(fold: Unit -> Unit, a: Wide, b: Wide)
    ensures CompareOrdinal(fold, a, b) == 0 <==>
      |a| == |b| && forall i :: 0 <= i < |a| ==> fold(a[i]) == fold(b[i])
  {
    if a == [] || b == [] {
    } else {
      OrdinalEqual(fold, a[1..], b[1..]);
      if CompareOrdinal(fold, a, b) == 0 {
        forall i | 0 <= i < |a| ensures fold(a[i]) == fold(b[i]) {
          if i > 0 {
            assert a[i] == a[1..][i - 1] && b[i] == b[1..][i - 1];
          }
        }
      }
      if |a| == |b| && forall i :: 0 <= i < |a| ==> fold(a[i]) == fold(b[i]) {
        assert forall i :: 0 <= i < |a| - 1 ==> a[1..][i] == a[i + 1] && b[1..][i] == b[i + 1];
      }
    }
  }
}
