/** The column mapping and UTF-8 (section 3 of RFC 3629), UTF-16 (section 2.1 of RFC 2781). */
module Utf16Results {
  import opened Wrappers
  import opened Index
  import opened Utf16

  // ---- prefixes ----

  lemma {:induction false} BitsLocal(text: Text, more: Text, from: nat, n: nat)
    requires 0 < n && from + n <= |text|
    ensures Bits(text + more, from, n) == Bits(text, from, n)
  {
    if n > 1 {
      BitsLocal(text, more, from, n - 1);
    }
  }

  /** What follows a code point does not matter. */
  lemma NextLocal(text: Text, more: Text, offset: nat)
    ensures Next(text, offset).Some? ==> Next(text + more, offset) == Next(text, offset)
    ensures Next(text + more, offset).Some? && Next(text + more, offset).value.end <= |text| ==>
              Next(text, offset) == Next(text + more, offset)
  {
    if offset < |text| {
      var n := Announced(text[offset]);
      if n > 0 && offset + n <= |text| {
        BitsLocal(text, more, offset, n);
        assert forall k | offset <= k < offset + n :: (text + more)[k] == text[k];
      }
    }
  }

  lemma {:induction false} ReachesLocal(text: Text, more: Text, offset: nat, end: nat)
    requires offset <= end <= |text|
    ensures Reaches(text + more, offset, end) <==> Reaches(text, offset, end)
    ensures Reaches(text, offset, end) ==> Units(text + more, offset, end) == Units(text, offset, end)
    decreases |text| - offset
  {
    hide Next;
    NextLocal(text, more, offset);
    if offset != end {
      var p, q := Next(text, offset), Next(text + more, offset);
      if q.Some? && q.value.end <= end {
        ReachesLocal(text, more, q.value.end, end);
      } else if q.Some? {
        NotBack(text + more, q.value.end, end);
        if p.Some? {
          NotBack(text, p.value.end, end);
        }
      }
    }
  }

  lemma NotBack(text: Text, offset: nat, end: nat)
    requires end < offset
    ensures !Reaches(text, offset, end)
  {
    if Reaches(text, offset, end) {
      ReachesForward(text, offset, end);
    }
  }

  lemma PrefixLength(text: Text, o: nat)
    requires Reaches(text, 0, o) && o <= |text|
    ensures Length(text[..o]) == Units(text, 0, o) % WRAP
  {
    assert text == text[..o] + text[o..];
    ReachesLocal(text[..o], text[o..], 0, o);
  }

  // ---- units and bytes ----

  /** Two units take four bytes. */
  lemma WidthWithinBytes(text: Text, offset: nat)
    requires Next(text, offset).Some?
    ensures Width(Next(text, offset).value.value) <= Next(text, offset).value.end - offset
  {
    var n := Announced(text[offset]);
    if n == 1 {
      assert Bits(text, offset, 1) < 0x80;
    }
  }

  lemma {:induction false} UnitsWithinBytes(text: Text, offset: nat, end: nat)
    requires Reaches(text, offset, end)
    ensures offset <= end && Units(text, offset, end) <= end - offset
    ensures offset < end ==> end <= |text| && Units(text, offset, end) > 0
    decreases |text| - offset
  {
    hide Next;
    if offset != end {
      WidthWithinBytes(text, offset);
      UnitsWithinBytes(text, Next(text, offset).value.end, end);
    }
  }

  /** No text is longer in UTF-16 units than in bytes. */
  lemma LengthWithinBytes(text: Text)
    ensures Length(text) <= |text|
  {
    hide Next;
    if Reaches(text, 0, |text|) {
      UnitsWithinBytes(text, 0, |text|);
    }
  }

  // ---- round trips ----

  /** Decoding reaches o from the offset, and no place before it, with the column on the wrapping counter. */
  ghost predicate FirstAt(text: Text, column: nat, offset: nat, units: nat, o: nat) {
    && Reaches(text, offset, o) && (units + Units(text, offset, o)) % WRAP == column
    && forall p: nat | p < o && Reaches(text, offset, p) :: (units + Units(text, offset, p)) % WRAP != column
  }

  lemma UnitsStep(text: Text, offset: nat, o: nat)
    requires Next(text, offset).Some? && o != offset
    ensures var p := Next(text, offset).value;
            && (Reaches(text, offset, o) <==> Reaches(text, p.end, o))
            && (Reaches(text, offset, o) ==> Units(text, offset, o) == Width(p.value) + Units(text, p.end, o))
  {
  }

  lemma StepPastWrap(units: nat, width: nat, rest: nat)
    ensures ((units + width) % WRAP + rest) % WRAP == (units + (width + rest)) % WRAP
  {
  }

  /** Below the last column the counter never wraps: the offset is the place with exactly that many units. */
  lemma {:induction false} BelowLastColumn(text: Text, column: nat, offset: nat, units: nat, o: nat)
    requires units <= column < WRAP - 1
    ensures Offset(text, column, offset, units) == Some(o)
            <==> Reaches(text, offset, o) && units + Units(text, offset, o) == column
    decreases |text| - offset
  {
    hide Next;
    if o != offset && Reaches(text, offset, o) {
      UnitsWithinBytes(text, offset, o);
    }
    if units < column && Next(text, offset).Some? {
      var p := Next(text, offset).value;
      if o == offset {
        ReachesBack(text, column, p.end, (units + Width(p.value)) % WRAP, o);
      } else {
        UnitsStep(text, offset, o);
        if units + Width(p.value) <= column {
          BelowLastColumn(text, column, p.end, units + Width(p.value), o);
        }
      }
    }
  }

  /** The search never goes back. */
  lemma {:induction false} ReachesBack(text: Text, column: nat, offset: nat, units: nat, o: nat)
    requires o < offset
    ensures Offset(text, column, offset, units) != Some(o)
    decreases |text| - offset
  {
    hide Next;
    if units < column && Next(text, offset).Some? {
      var p := Next(text, offset).value;
      ReachesBack(text, column, p.end, (units + Width(p.value)) % WRAP, o);
    }
  }

  /** At the last column a pair that straddles the wrap passes the test against the column, so the search goes on. */
  lemma {:induction false} AtLastColumn(text: Text, offset: nat, units: nat, o: nat)
    requires units < WRAP
    ensures Offset(text, WRAP - 1, offset, units) == Some(o) <==> FirstAt(text, WRAP - 1, offset, units, o)
    decreases |text| - offset
  {
    hide Next;
    if units == WRAP - 1 {
      if o != offset && Reaches(text, offset, o) {
        ReachesForward(text, offset, o);
        assert Reaches(text, offset, offset) && Units(text, offset, offset) == 0;
      }
      if o == offset {
        NoneBefore(text, offset, o);
      }
    } else if Next(text, offset).Some? {
      var p := Next(text, offset).value;
      var more := (units + Width(p.value)) % WRAP;
      if o == offset {
        ReachesBack(text, WRAP - 1, p.end, more, o);
      } else {
        AtLastColumn(text, p.end, more, o);
        FirstAtStep(text, WRAP - 1, offset, units, o);
      }
    }
  }

  lemma NoneBefore(text: Text, offset: nat, o: nat)
    requires o <= offset
    ensures forall p: nat | p < o :: !Reaches(text, offset, p)
  {
    forall p: nat | p < o ensures !Reaches(text, offset, p) {
      NotBack(text, offset, p);
    }
  }

  lemma FirstAtStep(text: Text, column: nat, offset: nat, units: nat, o: nat)
    requires Next(text, offset).Some? && o != offset && units < WRAP && units != column
    ensures var p := Next(text, offset).value;
            FirstAt(text, column, offset, units, o)
            <==> FirstAt(text, column, p.end, (units + Width(p.value)) % WRAP, o)
  {
    hide Next;
    var p := Next(text, offset).value;
    var more := (units + Width(p.value)) % WRAP;
    forall q: nat | q != offset
      ensures Reaches(text, offset, q) <==> Reaches(text, p.end, q)
      ensures Reaches(text, offset, q) ==>
                (units + Units(text, offset, q)) % WRAP == (more + Units(text, p.end, q)) % WRAP
    {
      UnitsStep(text, offset, q);
      if Reaches(text, offset, q) {
        StepPastWrap(units, Width(p.value), Units(text, p.end, q));
      }
    }
    assert Units(text, offset, offset) == 0;
    if Reaches(text, p.end, offset) {
      NotBack(text, p.end, offset);
    }
  }

  /** The offset of a column, for every text: the place with that many units, and for the last column the first place
      with that many units on the wrapping counter. */
  lemma OffsetExactly(text: Text, column: nat, o: nat)
    requires column < WRAP
    ensures Offset(text, column, 0, 0) == Some(o)
            <==> FirstAt(text, column, 0, 0, o) && (Units(text, 0, o) == column || column == WRAP - 1)
  {
    if column == WRAP - 1 {
      AtLastColumn(text, 0, 0, o);
    } else {
      BelowLastColumn(text, column, 0, 0, o);
      if Reaches(text, 0, o) && Units(text, 0, o) == column {
        FewerBefore(text, o);
      }
    }
  }

  /** Places further on have more units. */
  lemma FewerBefore(text: Text, o: nat)
    requires Reaches(text, 0, o)
    ensures forall p: nat | p < o && Reaches(text, 0, p) :: Units(text, 0, p) < Units(text, 0, o)
  {
    forall p: nat | p < o && Reaches(text, 0, p) ensures Units(text, 0, p) < Units(text, 0, o) {
      ReachesOnly(text, 0, p, o);
      UnitsWithinBytes(text, p, o);
    }
  }

  /** A column that is found is the length of the text before it. */
  lemma ColumnRoundTrip(text: Text, column: nat)
    requires column < WRAP && Offset(text, column, 0, 0).Some?
    ensures var o := Offset(text, column, 0, 0).value;
            o <= |text| && Reaches(text, 0, o) && Length(text[..o]) == column
  {
    var o := Offset(text, column, 0, 0).value;
    OffsetExactly(text, column, o);
    ReachesForward(text, 0, o);
    PrefixLength(text, o);
  }

  /** A place that decoding reaches is found from its length exactly when `unsigned` can count the units before it, or
      when it is the first place whose wrapped count is the largest `unsigned`. */
  lemma OffsetRoundTrip(text: Text, o: nat)
    requires Reaches(text, 0, o) && o <= |text|
    ensures Offset(text, Length(text[..o]), 0, 0) == Some(o)
            <==> || Units(text, 0, o) < WRAP
                 || (Units(text, 0, o) % WRAP == WRAP - 1 && FirstAt(text, WRAP - 1, 0, 0, o))
  {
    hide Next, Offset, FirstAt, Length, Reaches, Units;
    PrefixLength(text, o);
    OffsetExactly(text, Units(text, 0, o) % WRAP, o);
    if Units(text, 0, o) < WRAP {
      FirstByUnits(text, o);
    }
  }

  lemma FirstByUnits(text: Text, o: nat)
    requires Reaches(text, 0, o) && Units(text, 0, o) < WRAP
    ensures FirstAt(text, Units(text, 0, o), 0, 0, o)
  {
    hide Next;
    FewerBefore(text, o);
  }

  /** For texts below four gigabytes the two functions are inverse: the offset of a column is the place, reached by
      decoding, whose length is the column; there is none inside a surrogate pair or behind a malformed byte. */
  lemma OffsetIsInverse(text: Text, column: nat, o: nat)
    requires |text| < WRAP && column < WRAP && o <= |text|
    ensures Offset(text, column, 0, 0) == Some(o) <==> Reaches(text, 0, o) && Length(text[..o]) == column
  {
    if Offset(text, column, 0, 0) == Some(o) {
      ColumnRoundTrip(text, column);
    }
    if Reaches(text, 0, o) && Length(text[..o]) == column {
      UnitsWithinBytes(text, 0, o);
      OffsetRoundTrip(text, o);
    }
  }

  // ---- what the server sends and receives ----

  /** The bytes before a stored column, which counts from 1; 0 stands for no column. */
  function Front(line: Text, column: nat): nat {
    var start := if column == 0 then 0 else column - 1;
    if start < |line| then start else |line|
  }

  /** The start of a range that the server sends. */
  function StartCharacter(line: Text, column: nat): nat {
    Length(line[..Front(line, column)])
  }

  /** The stored column for a character that a client sends. */
  function ByteColumn(line: Text, character: nat): Option<nat> {
    match Offset(line, character, 0, 0)
    case None => None
    case Some(o) => Some((o + 1) % WRAP)
  }

  /** Every front that the server measures is short enough: what it sends leads back to the same byte, and to the same
      column, exactly when the line decodes up to there. */
  lemma MeasuredFrontRoundTrip(line: Text, column: nat)
    requires column < WRAP
    ensures Offset(line, StartCharacter(line, column), 0, 0) == Some(Front(line, column))
            <==> Reaches(line, 0, Front(line, column))
    ensures Reaches(line, 0, Front(line, column)) && 1 <= column <= |line| + 1 ==>
              ByteColumn(line, StartCharacter(line, column)) == Some(column)
  {
    hide Offset, Reaches, Length;
    FrontFound(line, Front(line, column));
  }

  lemma FrontFound(line: Text, front: nat)
    requires front <= |line| && front < WRAP - 1
    ensures Offset(line, Length(line[..front]), 0, 0) == Some(front) <==> Reaches(line, 0, front)
  {
    ShortFront(line, front);
    var column := Length(line[..front]);
    hide *;
    if Reaches(line, 0, front) {
      OffsetRoundTrip(line, front);
    } else if Offset(line, column, 0, 0) == Some(front) {
      ColumnRoundTrip(line, column);
    }
  }

  lemma ShortFront(line: Text, front: nat)
    requires front <= |line| && front < WRAP - 1
    ensures Length(line[..front]) < WRAP - 1
    ensures Reaches(line, 0, front) ==> Units(line, 0, front) < WRAP - 1
  {
    LengthWithinBytes(line[..front]);
    hide Next, Length;
    if Reaches(line, 0, front) {
      UnitsWithinBytes(line, 0, front);
    }
  }

  // ---- RFC 3629 and RFC 2781 ----

  function Encode(value: nat): Text
    requires Scalar(value)
  {
    if value < 0x80 then [value as byte]
    else if value < 0x800 then [(0xc0 + value / 64) as byte, (0x80 + value % 64) as byte]
    else if value < 0x10000 then
      [(0xe0 + value / 4096) as byte, (0x80 + value / 64 % 64) as byte, (0x80 + value % 64) as byte]
    else
      [(0xf0 + value / 262144) as byte, (0x80 + value / 4096 % 64) as byte, (0x80 + value / 64 % 64) as byte,
       (0x80 + value % 64) as byte]
  }

  /** The code units: one, or a high and a low surrogate. */
  function CodeUnits(value: nat): seq<nat>
    requires Scalar(value)
  {
    if value < 0x10000 then [value]
    else [0xd800 + (value - 0x10000) / 0x400, 0xdc00 + (value - 0x10000) % 0x400]
  }

  function EncodeAll(values: seq<nat>): Text
    requires forall v | v in values :: Scalar(v)
  {
    if values == [] then [] else EncodeAll(values[..|values| - 1]) + Encode(values[|values| - 1])
  }

  function AllUnits(values: seq<nat>): seq<nat>
    requires forall v | v in values :: Scalar(v)
  {
    if values == [] then [] else AllUnits(values[..|values| - 1]) + CodeUnits(values[|values| - 1])
  }

  lemma Sextets(value: nat)
    ensures value / 64 / 64 == value / 4096 && value / 4096 / 64 == value / 262144
    ensures value == value / 64 * 64 + value % 64
    ensures value / 64 == value / 4096 * 64 + value / 64 % 64
    ensures value / 4096 == value / 262144 * 64 + value / 4096 % 64
  {
  }

  lemma BitsOf1(e: Text)
    requires |e| >= 1
    ensures Bits(e, 0, 1) == FirstBits(e[0])
  {
  }

  lemma BitsOf2(e: Text)
    requires |e| >= 2
    ensures Bits(e, 0, 2) == FirstBits(e[0]) * 64 + e[1] as int % 64
  {
    assert Bits(e, 0, 1) == FirstBits(e[0]);
  }

  lemma BitsOf3(e: Text)
    requires |e| >= 3
    ensures Bits(e, 0, 3) == (FirstBits(e[0]) * 64 + e[1] as int % 64) * 64 + e[2] as int % 64
  {
    BitsOf2(e);
    assert Bits(e, 0, 3) == Bits(e, 0, 2) * 64 + e[2] as int % 64;
  }

  lemma BitsOf4(e: Text)
    requires |e| >= 4
    ensures Bits(e, 0, 4)
            == ((FirstBits(e[0]) * 64 + e[1] as int % 64) * 64 + e[2] as int % 64) * 64 + e[3] as int % 64
  {
    BitsOf3(e);
    hide Bits;
    assert Bits(e, 0, 4) == Bits(e, 0, 3) * 64 + e[3] as int % 64 by { BitsUnfold(e, 4); }
  }

  lemma BitsUnfold(e: Text, n: nat)
    requires 1 < n <= |e|
    ensures Bits(e, 0, n) == Bits(e, 0, n - 1) * 64 + e[n - 1] as int % 64
  {
  }

  ghost predicate Spells(e: Text, value: nat) {
    e != [] && Announced(e[0]) == |e| && Bits(e, 0, |e|) == value && forall k | 0 < k < |e| :: Continuation(e[k])
  }

  lemma Spells2(value: nat)
    requires 0x80 <= value < 0x800
    ensures Spells(Encode(value), value)
  {
    Sextets(value);
    BitsOf2(Encode(value));
    hide Bits;
  }

  lemma Spells3(value: nat)
    requires 0x800 <= value < 0x10000 && Scalar(value)
    ensures Spells(Encode(value), value)
  {
    Sextets(value);
    BitsOf3(Encode(value));
    hide Bits;
  }

  lemma Spells4(value: nat)
    requires 0x10000 <= value && Scalar(value)
    ensures Spells(Encode(value), value)
  {
    var e := Encode(value);
    Sextets(value);
    BitsOf4(e);
    First4(value / 262144);
    Following(value / 4096);
    Following(value / 64);
    Following(value);
    assert e[1] == (0x80 + value / 4096 % 64) as byte && e[2] == (0x80 + value / 64 % 64) as byte;
    hide Bits, Announced, FirstBits, Continuation, Encode;
  }

  lemma First4(high: nat)
    requires high < 8
    ensures Announced((0xf0 + high) as byte) == 4 && FirstBits((0xf0 + high) as byte) == high
  {
  }

  lemma Following(value: nat)
    ensures Continuation((0x80 + value % 64) as byte) && (0x80 + value % 64) as byte as int % 64 == value % 64
  {
  }

  lemma BitsOfEncoding(value: nat)
    requires Scalar(value)
    ensures Spells(Encode(value), value)
  {
    if value < 0x80 {
      assert Bits(Encode(value), 0, 1) == FirstBits(Encode(value)[0]);
    } else if value < 0x800 {
      Spells2(value);
    } else if value < 0x10000 {
      Spells3(value);
    } else {
      Spells4(value);
    }
  }

  lemma {:induction false} BitsShift(before: Text, text: Text, from: nat, n: nat)
    requires 0 < n && from + n <= |text|
    ensures Bits(before + text, |before| + from, n) == Bits(text, from, n)
  {
    if n > 1 {
      BitsShift(before, text, from, n - 1);
    }
  }

  lemma NextOfEncoding(before: Text, value: nat)
    requires Scalar(value)
    ensures Next(before + Encode(value), |before|) == Some(Point(value, |before| + |Encode(value)|))
  {
    var e := Encode(value);
    BitsOfEncoding(value);
    BitsShift(before, e, 0, |e|);
    assert (before + e)[|before|] == e[0];
    hide Encode, Bits;
    forall k | |before| < k < |before| + |e| ensures Continuation((before + e)[k]) {
      assert (before + e)[k] == e[k - |before|];
    }
  }

  lemma {:induction false} EncodedUnits(values: seq<nat>)
    requires forall v | v in values :: Scalar(v)
    ensures var text := EncodeAll(values);
            Reaches(text, 0, |text|) && Units(text, 0, |text|) == |AllUnits(values)|
  {
    hide Next, Encode;
    if values != [] {
      var n := |values| - 1;
      var front, last := EncodeAll(values[..n]), values[n];
      EncodedUnits(values[..n]);
      NextOfEncoding(front, last);
      ReachesLocal(front, Encode(last), 0, |front|);
      OneMore(front + Encode(last), 0, |front|);
    }
  }

  /** For well-formed text the length is the number of UTF-16 code units. */
  lemma LengthOfEncoding(values: seq<nat>)
    requires forall v | v in values :: Scalar(v)
    ensures Length(EncodeAll(values)) == |AllUnits(values)| % WRAP
  {
    EncodedUnits(values);
  }

  /** The column of a character is the number of code units before it, and leads back to its first byte. */
  lemma CharacterColumn(values: seq<nat>, more: Text)
    requires (forall v | v in values :: Scalar(v)) && |AllUnits(values)| < WRAP
    ensures Offset(EncodeAll(values) + more, |AllUnits(values)|, 0, 0) == Some(|EncodeAll(values)|)
  {
    var text := EncodeAll(values);
    EncodedUnits(values);
    hide *;
    ReachesLocal(text, more, 0, |text|);
    PrefixLength(text + more, |text|);
    assert (text + more)[..|text|] == text;
    OffsetRoundTrip(text + more, |text|);
  }

  /** A column between two surrogates has no offset, unless it is the last column and a later place wraps to it. */
  lemma InsidePair(text: Text, o: nat)
    requires Reaches(text, 0, o) && Next(text, o).Some? && Next(text, o).value.value > 0xffff
    requires Units(text, 0, o) + 1 < WRAP
    ensures Offset(text, Units(text, 0, o) + 1, 0, 0).Some?
            <==> Units(text, 0, o) + 1 == WRAP - 1
                 && exists p: nat :: Reaches(text, 0, p) && Units(text, 0, p) % WRAP == WRAP - 1
  {
    var column := Units(text, 0, o) + 1;
    if Offset(text, column, 0, 0).Some? {
      var p := Offset(text, column, 0, 0).value;
      OffsetExactly(text, column, p);
      NoPlaceInside(text, o, p);
      assert column == WRAP - 1;
    }
    if p: nat :| column == WRAP - 1 && Reaches(text, 0, p) && Units(text, 0, p) % WRAP == WRAP - 1 {
      var first := FirstPlace(text, WRAP - 1, p);
      OffsetExactly(text, column, first);
    }
  }

  /** No place lies one unit behind a pair's beginning. */
  lemma NoPlaceInside(text: Text, o: nat, p: nat)
    requires Reaches(text, 0, o) && Next(text, o).Some? && Next(text, o).value.value > 0xffff && Reaches(text, 0, p)
    ensures Units(text, 0, p) != Units(text, 0, o) + 1
  {
    hide Next;
    var end := Next(text, o).value.end;
    if p <= o {
      FewerBefore(text, o);
    } else {
      ReachesOnly(text, 0, o, p);
      UnitsStep(text, o, p);
    }
  }

  lemma {:induction false} FirstPlace(text: Text, column: nat, p: nat) returns (first: nat)
    requires Reaches(text, 0, p) && Units(text, 0, p) % WRAP == column
    ensures FirstAt(text, column, 0, 0, first)
    decreases p
  {
    if q: nat :| q < p && Reaches(text, 0, q) && Units(text, 0, q) % WRAP == column {
      first := FirstPlace(text, column, q);
    } else {
      first := p;
    }
  }

  // ---- the wrap ----

  predicate Ascii(text: Text) {
    forall i | 0 <= i < |text| :: text[i] < 0x80
  }

  /** A line of 2^32 - 2 ASCII bytes, a pair, and 2^32 - 1 ASCII bytes. The last column lies inside the pair, but the
      counter wraps there and the end of the line, 2^33 - 1 units on, is taken for it. */
  lemma WrapFindsLaterPlace(front: Text, value: nat, back: Text)
    requires Ascii(front) && |front| == WRAP - 2 && Scalar(value) && value > 0xffff && Ascii(back) && |back| == WRAP - 1
    ensures var text := front + Encode(value) + back;
            && Reaches(text, 0, |text|) && Units(text, 0, |text|) == 2 * WRAP - 1
            && Reaches(text, 0, |front|) && Units(text, 0, |front|) + 1 == WRAP - 1
            && Next(text, |front|) == Some(Point(value, |front| + 4))
            && Offset(text, WRAP - 1, 0, 0) == Some(|text|)
  {
    var text := front + Encode(value) + back;
    var middle := |front| + 4;
    assert |Encode(value)| == 4;
    AsciiTail(front, 0);
    assert text == front + (Encode(value) + back);
    ReachesLocal(front, Encode(value) + back, 0, |front|);
    NextOfEncoding(front, value);
    NextLocal(front + Encode(value), back, |front|);
    hide Encode;
    OneMore(text, 0, |front|);
    AsciiTail(text, middle);
    ReachesOnly(text, 0, middle, |text|);
    forall p: nat | p < middle && Reaches(text, 0, p) ensures Units(text, 0, p) != WRAP - 1 {
      NoPlaceInside(text, |front|, p);
    }
    NoEarlierPlace(text, middle);
    OffsetExactly(text, WRAP - 1, |text|);
  }

  lemma {:induction false} AsciiTail(text: Text, offset: nat)
    requires offset <= |text| && forall i | offset <= i < |text| :: text[i] < 0x80
    ensures Reaches(text, offset, |text|) && Units(text, offset, |text|) == |text| - offset
    decreases |text| - offset
  {
    if offset < |text| {
      assert Bits(text, offset, 1) == text[offset] as int;
      assert Next(text, offset) == Some(Point(text[offset] as int, offset + 1));
      AsciiTail(text, offset + 1);
    }
  }

  /** The length alone: at 2^32 bytes it wraps to 0, and leads back to the beginning. */
  lemma WrapBreaksRoundTrip(text: Text)
    requires Ascii(text) && |text| == WRAP
    ensures Reaches(text, 0, |text|) && Length(text) == 0 && Offset(text, Length(text), 0, 0) == Some(0)
  {
    AsciiTail(text, 0);
  }

  /** With 2^32 units at a place and 2^32 - 1 behind it, only the end wraps to the last column. */
  lemma NoEarlierPlace(text: Text, middle: nat)
    requires Reaches(text, 0, middle) && Units(text, 0, middle) == WRAP && middle <= |text|
    requires Reaches(text, 0, |text|) && Units(text, 0, |text|) == 2 * WRAP - 1
    requires forall p: nat | p < middle && Reaches(text, 0, p) :: Units(text, 0, p) != WRAP - 1
    ensures FirstAt(text, WRAP - 1, 0, 0, |text|)
  {
    FewerBefore(text, middle);
    FewerBefore(text, |text|);
    forall p: nat | p < |text| && Reaches(text, 0, p) ensures (0 + Units(text, 0, p)) % WRAP != WRAP - 1 {
      if p >= middle {
        ReachesOnly(text, 0, middle, p);
      }
    }
  }

  /** The decoder is not strict: what it accepts is the encoding exactly when it is not overlong. */
  lemma AcceptedEncodings(text: Text, o: nat)
    requires Next(text, o).Some?
    ensures var p := Next(text, o).value;
            text[o..p.end] == Encode(p.value) <==> p.end - o == |Encode(p.value)|
  {
    var p := Next(text, o).value;
    var e := text[o..p.end];
    assert text[..o] + text[o..] == text && text[o..][..|e|] == e;
    BitsShift(text[..o], text[o..], 0, |e|);
    assert text[o..] == e + text[p.end..];
    BitsLocal(e, text[p.end..], 0, |e|);
    assert forall k | 0 < k < |e| :: e[k] == text[o + k];
    assert Spells(e, p.value);
    hide Next;
    if |e| == |Encode(p.value)| {
      SpellingIsEncoding(e, p.value);
    }
  }

  lemma Split64(high: nat, low: nat)
    requires low < 64
    ensures (high * 64 + low) / 64 == high && (high * 64 + low) % 64 == low
  {
  }

  lemma Payload(b: byte)
    requires Continuation(b)
    ensures b as int == 0x80 + b as int % 64
  {
  }

  lemma SpellingIs2(e: Text, value: nat)
    requires Spells(e, value) && Scalar(value) && |e| == 2 == |Encode(value)|
    ensures e == Encode(value)
  {
    BitsOf2(e);
    Payload(e[1]);
    Split64(FirstBits(e[0]), e[1] as int % 64);
    hide Bits;
  }

  lemma SpellingIs3(e: Text, value: nat)
    requires Spells(e, value) && Scalar(value) && |e| == 3 == |Encode(value)|
    ensures e == Encode(value)
  {
    BitsOf3(e);
    Payload(e[1]);
    Payload(e[2]);
    var a := FirstBits(e[0]);
    Split64(a, e[1] as int % 64);
    Split64(a * 64 + e[1] as int % 64, e[2] as int % 64);
    Sextets(value);
    hide Bits;
  }

  lemma SpellingIs4(e: Text, value: nat)
    requires Spells(e, value) && Scalar(value) && |e| == 4 == |Encode(value)|
    ensures e == Encode(value)
  {
    BitsOf4(e);
    Payload(e[1]);
    Payload(e[2]);
    Payload(e[3]);
    var a := FirstBits(e[0]);
    var b := a * 64 + e[1] as int % 64;
    var c := b * 64 + e[2] as int % 64;
    Split64(a, e[1] as int % 64);
    Split64(b, e[2] as int % 64);
    Split64(c, e[3] as int % 64);
    Sextets(value);
    hide Bits;
    assert value / 64 == c && value / 4096 == b && value / 262144 == a;
    assert e[0] as int == 0xf0 + a;
  }

  lemma SpellingIsEncoding(e: Text, value: nat)
    requires Spells(e, value) && Scalar(value) && |e| == |Encode(value)|
    ensures e == Encode(value)
  {
    if |e| == 1 {
      BitsOf1(e);
      hide Bits;
    } else {
      hide Spells, Encode;
      EncodeSize(value);
      if |e| == 2 {
        SpellingIs2(e, value);
      } else if |e| == 3 {
        SpellingIs3(e, value);
      } else {
        SpellingIs4(e, value);
      }
    }
  }

  lemma EncodeSize(value: nat)
    requires Scalar(value)
    ensures 1 <= |Encode(value)| <= 4
  {
  }

  lemma OverlongIsAccepted()
    ensures Next([0xc0, 0x80], 0) == Some(Point(0, 2)) && Encode(0) == [0]
  {
    var text: Text := [0xc0, 0x80];
    assert Bits(text, 0, 2) == Bits(text, 0, 1) * 64 + 0;
  }
}
