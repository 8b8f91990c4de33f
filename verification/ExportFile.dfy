/** The export file and the writes to it (write_all and write_utf8 in src/export.c).  The file holds
    the UTF-16 units written; their UTF-8 encoding is not modelled. */
module ExportFiles {
  import opened WideStrings

  const MAXDWORD := 0xFFFF_FFFF
  const INT_MAX := 0x7FFF_FFFF

  /** sizeof(WCHAR). */
  const UNIT_BYTES := 2

  /** The environment of a file, asked at a position of it: whether WriteFile succeeds and how much of
      the request it takes, and whether the buffers of a conversion and of an escaped text can be
      allocated. */
  datatype Device = Device(takes: (nat, nat) -> (bool, nat), converts: nat -> bool, escapes: nat -> bool) {
    ghost predicate Reliable() {
      && (forall at, n :: n > 0 ==> takes(at, n).0 && takes(at, n).1 > 0)
      && (forall at :: converts(at) && escapes(at))
    }
  }

  /** A write of `text` turned `before` into `after`: all of it when it succeeded, a part otherwise. */
  ghost predicate Wrote(before: seq<Unit>, after: seq<Unit>, text: seq<Unit>, ok: bool) {
    before <= after <= before + text && (ok ==> after == before + text)
  }

  class ExportFile {
    const device: Device
    var contents: seq<Unit>

    constructor (device: Device)
      ensures this.device == device && contents == []
    {
      this.device, contents := device, [];
    }

    /** WriteFile: appends what the device takes of `data`. */
    method WriteFile(data: seq<Unit>) returns (ok: bool, written: nat)
      modifies this
      ensures written <= |data| && contents == old(contents) + data[..written]
      ensures device.Reliable() && data != [] ==> ok && written > 0
    {
      var answer := device.takes(|contents|, |data|);
      ok, written := answer.0, Min(answer.1, |data|);
      contents := contents + data[..written];
    }

    /** write_all: partial writes are continued, a failed or empty one ends the attempt. */
    method WriteAll(data: seq<Unit>) returns (ok: bool)
      modifies this
      ensures Wrote(old(contents), contents, data, ok)
      ensures device.Reliable() ==> ok
    {
      var cursor := 0;
      while cursor < |data|
        invariant 0 <= cursor <= |data|
        invariant contents == old(contents) + data[..cursor]
      {
        var size := |data| - cursor;
        var chunk := if size > MAXDWORD then MAXDWORD else size;
        var done, written := WriteFile(data[cursor..cursor + chunk]);
        assert data[..cursor] + data[cursor..cursor + chunk][..written] == data[..cursor + written];
        if !done || written == 0 {
          return false;
        }
        cursor := cursor + written;
      }
      return true;
    }

    method WriteUtf8(text: Wide) returns (ok: bool)
      modifies this
      ensures Wrote(old(contents), contents, text, ok)
      ensures device.Reliable() && |text| <= INT_MAX ==> ok
      ensures |text| > INT_MAX || (text != [] && !device.converts(old(|contents|))) ==> !ok && contents == old(contents)
    {
      if |text| > INT_MAX {
        return false;
      }
      if |text| == 0 {
        return true;
      }
      if !device.converts(|contents|) {
        return false;
      }
      ok := WriteAll(text);
    }

    /** Writes the next piece of a larger text. */
    method WritePiece(ghost start: seq<Unit>, ghost pieces: seq<Wide>, ghost k: nat, text: Wide) returns (ok: bool)
      requires k < |pieces| && pieces[k] == text && Writing(start, contents, pieces, k, true)
      modifies this
      ensures Writing(start, contents, pieces, k + 1, ok)
      ensures device.Reliable() && |text| <= INT_MAX ==> ok
    {
      hide Written, Stopped, Wrote;
      ghost var before := contents;
      ok := WriteUtf8(text);
      WriteStep(start, before, contents, pieces, k, ok);
    }
  }

  // ---- texts written piece by piece ----

  function Concat(pieces: seq<Wide>): Wide {
    if pieces == [] then [] else Concat(pieces[..|pieces| - 1]) + pieces[|pieces| - 1]
  }

  lemma {:induction false} ConcatAppend(a: seq<Wide>, b: seq<Wide>)
    ensures Concat(a + b) == Concat(a) + Concat(b)
  {
    if b == [] {
      assert a + b == a;
    } else {
      assert (a + b)[..|a + b| - 1] == a + b[..|b| - 1];
      ConcatAppend(a, b[..|b| - 1]);
    }
  }

  /** The first `k` of these pieces follow `start`. */
  ghost predicate Written(start: seq<Unit>, contents: seq<Unit>, pieces: seq<Wide>, k: nat)
    requires k <= |pieces|
  {
    contents == start + Concat(pieces[..k])
  }

  /** The writing of these pieces stopped somewhere. */
  ghost predicate Stopped(start: seq<Unit>, contents: seq<Unit>, pieces: seq<Wide>) {
    start <= contents <= start + Concat(pieces)
  }

  ghost predicate Writing(start: seq<Unit>, contents: seq<Unit>, pieces: seq<Wide>, k: nat, ok: bool)
    requires k <= |pieces|
  {
    if ok then Written(start, contents, pieces, k) else Stopped(start, contents, pieces)
  }

  lemma WritingStarts(start: seq<Unit>, pieces: seq<Wide>)
    ensures Writing(start, start, pieces, 0, true)
  {
  }

  lemma WriteStep(start: seq<Unit>, before: seq<Unit>, after: seq<Unit>, pieces: seq<Wide>, k: nat, ok: bool)
    requires k < |pieces| && Writing(start, before, pieces, k, true) && Wrote(before, after, pieces[k], ok)
    ensures Writing(start, after, pieces, k + 1, ok)
  {
    assert pieces[..k + 1][..k] == pieces[..k];
    assert pieces == pieces[..k + 1] + pieces[k + 1..];
    ConcatAppend(pieces[..k + 1], pieces[k + 1..]);
    assert before + pieces[k] == start + Concat(pieces[..k + 1]);
  }

  lemma WritingEnds(start: seq<Unit>, contents: seq<Unit>, pieces: seq<Wide>, ok: bool)
    requires Writing(start, contents, pieces, |pieces|, ok)
    ensures Wrote(start, contents, Concat(pieces), ok)
  {
    assert pieces[..|pieces|] == pieces;
  }

  lemma WroteNothing(contents: seq<Unit>, text: seq<Unit>)
    ensures Wrote(contents, contents, text, false)
  {
  }

  lemma ConcatOne(a: Wide)
    ensures Concat([a]) == a
  {
  }

  lemma TwoParts(a: Wide, b: Wide)
    ensures Concat([a, b]) == a + b
  {
    ConcatOne(a);
    assert [a, b][..1] == [a];
  }
}
