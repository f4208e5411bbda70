/** Positions of the language server protocol: UTF-16 columns of UTF-8 text (tools/lsp/lsp_source.cpp). */
module Utf16 {
  import opened Wrappers
  import opened Index

  /** `unsigned` counts modulo this. */
  const WRAP: nat := 0x1_0000_0000

  // ---- decoding ----

  datatype Point = Point(value: nat, end: nat)

  predicate Continuation(b: byte) {
    0x80 <= b as int < 0xc0
  }

  /** The number of bytes that the first one announces; 0 for a byte that cannot be the first. */
  function Announced(first: byte): nat {
    var b := first as int;
    if b < 0x80 then 1 else if b < 0xc0 then 0 else if b < 0xe0 then 2 else if b < 0xf0 then 3
    else if b < 0xf8 then 4 else 0
  }

  /** The payload bits of the first byte. */
  function FirstBits(first: byte): nat {
    var b := first as int;
    if b < 0x80 then b else if b < 0xe0 then b % 0x20 else if b < 0xf0 then b % 0x10 else b % 0x08
  }

  function Bits(text: Text, from: nat, n: nat): nat
    requires 0 < n && from + n <= |text|
  {
    if n == 1 then FirstBits(text[from]) else Bits(text, from, n - 1) * 64 + text[from + n - 1] as int % 64
  }

  predicate Scalar(value: nat) {
    value <= 0x10ffff && !(0xd800 <= value <= 0xdfff)
  }

  function Next(text: Text, offset: nat): (r: Option<Point>)
    ensures r.Some? ==> offset < r.value.end <= |text| && Scalar(r.value.value)
  {
    if offset >= |text| then None
    else
      var n := Announced(text[offset]);
      if n == 0 || offset + n > |text| then None
      else if exists k :: offset < k < offset + n && !Continuation(text[k]) then None
      else if !Scalar(Bits(text, offset, n)) then None
      else Some(Point(Bits(text, offset, n), offset + n))
  }

  /** offset is where decoding stopped, successful or not. */
  method NextCodePoint(text: Text, offset: nat) returns (ok: bool, next: nat, codepoint: nat)
    ensures ok <==> Next(text, offset).Some?
    ensures ok ==> Next(text, offset) == Some(Point(codepoint, next))
  {
    ok, next, codepoint := false, offset, 0;
    if offset >= |text| {
      return;
    }
    var first := text[offset] as int;
    next := offset + 1;
    var length;
    if first < 0x80 {
      return true, next, first;
    }
    if first / 0x20 == 6 {
      codepoint, length := first % 0x20, 2;
    } else if first / 0x10 == 14 {
      codepoint, length := first % 0x10, 3;
    } else if first / 0x08 == 30 {
      codepoint, length := first % 0x08, 4;
    } else {
      return;
    }
    if next + length - 1 > |text| {
      return;
    }
    for i := 1 to length
      invariant next == offset + i && length == Announced(text[offset])
      invariant codepoint == Bits(text, offset, i)
      invariant forall k | offset < k < next :: Continuation(text[k])
    {
      var continuation := text[next] as int;
      next := next + 1;
      if continuation / 0x40 != 2 {
        assert !Continuation(text[next - 1]);
        return;
      }
      codepoint := codepoint * 64 + continuation % 64;
    }
    ok := codepoint <= 0x10ffff && !(0xd800 <= codepoint <= 0xdfff);
  }

  // ---- columns ----

  /** UTF-16 code units of a code point. */
  function Width(value: nat): (w: nat)
    ensures 1 <= w <= 2
  {
    if value > 0xffff then 2 else 1
  }

  /** Decoding from the offset reaches the end position. */
  predicate Reaches(text: Text, offset: nat, end: nat)
    decreases |text| - offset
  {
    offset == end || (Next(text, offset).Some? && Reaches(text, Next(text, offset).value.end, end))
  }

  /** The code units on the way. */
  function Units(text: Text, offset: nat, end: nat): nat
    requires Reaches(text, offset, end)
    decreases |text| - offset
  {
    if offset == end then 0
    else
      var p := Next(text, offset).value;
      Width(p.value) + Units(text, p.end, end)
  }

  /** utf16Length: a text that does not decode counts as its bytes. */
  function Length(text: Text): nat {
    (if Reaches(text, 0, |text|) then Units(text, 0, |text|) else |text|) % WRAP
  }

  /** byteOffset from an offset and a column reached. */
  function Offset(text: Text, column: nat, offset: nat, units: nat): Option<nat>
    decreases |text| - offset
  {
    if units >= column then Some(offset)
    else
      match Next(text, offset)
      case None => None
      case Some(p) =>
        var more := (units + Width(p.value)) % WRAP;
        if more > column then None else Offset(text, column, p.end, more)
  }

  method ByteOffset(text: Text, column: nat) returns (result: Option<nat>)
    requires column < WRAP
    ensures result == Offset(text, column, 0, 0)
  {
    hide Next;
    var offset: nat, units: nat := 0, 0;
    while units < column
      invariant offset <= |text| && units < WRAP
      invariant Offset(text, column, 0, 0) == Offset(text, column, offset, units)
      decreases |text| - offset
    {
      var ok, next, codepoint := NextCodePoint(text, offset);
      if !ok {
        return None;
      }
      offset := next;
      var width := if codepoint > 0xffff then 2 else 1;
      if (units + width) % WRAP > column {
        return None;
      }
      units := (units + width) % WRAP;
    }
    return Some(offset);
  }

  method Utf16Length(text: Text) returns (units: nat)
    ensures units == Length(text)
  {
    hide Next;
    var offset: nat := 0;
    units := 0;
    assert Reaches(text, 0, 0);
    while offset < |text|
      invariant offset <= |text| && Reaches(text, 0, offset)
      invariant units == Units(text, 0, offset) % WRAP
      decreases |text| - offset
    {
      var ok, next, codepoint := NextCodePoint(text, offset);
      if !ok {
        ReachesOnly(text, 0, offset, |text|);
        return |text| % WRAP;
      }
      OneMore(text, 0, offset);
      units := (units + if codepoint > 0xffff then 2 else 1) % WRAP;
      offset := next;
    }
  }

  lemma {:induction false} OneMore(text: Text, offset: nat, end: nat)
    requires Reaches(text, offset, end) && Next(text, end).Some?
    ensures Reaches(text, offset, Next(text, end).value.end)
    ensures Units(text, offset, Next(text, end).value.end)
            == Units(text, offset, end) + Width(Next(text, end).value.value)
    decreases |text| - offset
  {
    hide Next;
    ReachesForward(text, offset, end);
    if offset < end {
      OneMore(text, Next(text, offset).value.end, end);
    } else {
      assert Reaches(text, Next(text, end).value.end, Next(text, end).value.end);
    }
  }

  lemma {:induction false} ReachesForward(text: Text, offset: nat, end: nat)
    requires Reaches(text, offset, end)
    ensures offset <= end && (offset < end ==> end <= |text|)
    decreases |text| - offset
  {
    if offset != end {
      ReachesForward(text, Next(text, offset).value.end, end);
    }
  }

  /** Decoding goes through the places it reaches in one order. */
  lemma {:induction false} ReachesOnly(text: Text, offset: nat, middle: nat, end: nat)
    requires Reaches(text, offset, middle) && middle <= end
    ensures Reaches(text, offset, end) <==> Reaches(text, middle, end)
    ensures Reaches(text, offset, end) ==>
              Units(text, offset, end) == Units(text, offset, middle) + Units(text, middle, end)
    decreases |text| - offset
  {
    hide Next;
    ReachesForward(text, offset, middle);
    if offset != middle {
      ReachesForward(text, Next(text, offset).value.end, middle);
      ReachesOnly(text, Next(text, offset).value.end, middle, end);
    }
  }
}
