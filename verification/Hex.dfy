/** Hexadecimal text: the outer layer of a cursor and the identifiers inside it (tools/mcp/mcp_tools.cpp). */
module Hex {
  import opened Wrappers
  import opened Index

  function Digit(value: nat): byte
    requires value < 16
  {
    if value < 10 then (48 + value) as byte else (87 + value) as byte
  }

  /** std::from_chars in base 16 takes both cases. */
  function DigitValue(digit: byte): (r: Option<nat>)
    ensures r.Some? ==> r.value < 16
  {
    var d := digit as int;
    if 48 <= d <= 57 then Some(d - 48)
    else if 97 <= d <= 102 then Some(d - 87)
    else if 65 <= d <= 70 then Some(d - 55)
    else None
  }

  // ---- bytes ----

  function Pair(b: byte): Text {
    [Digit(b as int / 16), Digit(b as int % 16)]
  }

  function Encoded(input: Text): Text {
    if input == [] then [] else Encoded(input[..|input| - 1]) + Pair(input[|input| - 1])
  }

  function PairValue(high: byte, low: byte): Option<byte> {
    var h, l := DigitValue(high), DigitValue(low);
    if h.Some? && l.Some? then Some((16 * h.value + l.value) as byte) else None
  }

  /** The bytes that the text spells; None unless it is pairs of hexadecimal digits. */
  function Decoded(input: Text): Option<Text> {
    if input == [] then Some([])
    else if |input| == 1 then None
    else
      var n := |input| - 2;
      match (Decoded(input[..n]), PairValue(input[n], input[n + 1]))
      case (Some(front), Some(last)) => Some(front + [last])
      case _ => None
  }

  method EncodeHex(input: Text) returns (result: Text)
    ensures result == Encoded(input)
  {
    result := [];
    for i := 0 to |input|
      invariant result == Encoded(input[..i])
    {
      assert input[..i + 1][..i] == input[..i];
      result := result + [Digit(input[i] as int / 16)];
      result := result + [Digit(input[i] as int % 16)];
    }
    assert input[..|input|] == input;
  }

  method DecodeHex(input: Text) returns (result: Option<Text>)
    ensures result == Decoded(input)
  {
    DecodedShape(input);
    if |input| % 2 != 0 {
      return None;
    }
    var text: Text := [];
    var i := 0;
    while i < |input|
      invariant 0 <= i <= |input| && i % 2 == 0
      invariant Decoded(input[..i]) == Some(text)
    {
      var value := PairValue(input[i], input[i + 1]);
      assert input[..i + 2][..i] == input[..i];
      if value.None? {
        DecodedShape(input[..i + 2]);
        return None;
      }
      text := text + [value.value];
      i := i + 2;
    }
    assert input[..i] == input;
    return Some(text);
  }

  predicate AllDigits(input: Text) {
    forall i | 0 <= i < |input| :: DigitValue(input[i]).Some?
  }

  /** Exactly the even-length texts of hexadecimal digits are accepted. */
  lemma {:induction false} DecodedShape(input: Text)
    ensures Decoded(input).Some? <==> |input| % 2 == 0 && AllDigits(input)
  {
    if |input| >= 2 {
      var n := |input| - 2;
      DecodedShape(input[..n]);
      assert AllDigits(input) <==>
             AllDigits(input[..n]) && DigitValue(input[n]).Some? && DigitValue(input[n + 1]).Some? by {
        assert forall i | 0 <= i < n :: input[..n][i] == input[i];
      }
    }
  }

  lemma PairRoundTrip(b: byte)
    ensures PairValue(Pair(b)[0], Pair(b)[1]) == Some(b)
  {
    DigitRoundTrip(b as int / 16);
    DigitRoundTrip(b as int % 16);
  }

  lemma DigitRoundTrip(value: nat)
    requires value < 16
    ensures DigitValue(Digit(value)) == Some(value)
  {
  }

  /** Decoding undoes encoding. */
  lemma {:induction false} HexRoundTrip(input: Text)
    ensures Decoded(Encoded(input)) == Some(input)
  {
    if input != [] {
      var n := |input| - 1;
      HexRoundTrip(input[..n]);
      PairRoundTrip(input[n]);
      hide Pair, PairValue;
      var front, last := Encoded(input[..n]), Pair(input[n]);
      assert |last| == 2 by { LengthOfPair(input[n]); }
      assert (front + last)[..|front + last| - 2] == front;
      assert input == input[..n] + [input[n]];
    }
  }

  lemma LengthOfPair(b: byte)
    ensures |Pair(b)| == 2
  {
  }

  function LowerDigit(b: byte): byte {
    if 65 <= b as int <= 70 then b + 32 else b
  }

  function Lower(t: Text): Text {
    seq(|t|, i requires 0 <= i < |t| => LowerDigit(t[i]))
  }

  lemma PairOfValue(high: byte, low: byte)
    requires PairValue(high, low).Some?
    ensures Pair(PairValue(high, low).value) == [LowerDigit(high), LowerDigit(low)]
  {
  }

  /** Two accepted texts decode to the same bytes only when they differ at most in case. */
  lemma {:induction false} EncodedOfDecoded(input: Text)
    requires Decoded(input).Some?
    ensures Encoded(Decoded(input).value) == Lower(input)
  {
    if input != [] {
      var n := |input| - 2;
      EncodedOfDecoded(input[..n]);
      PairOfValue(input[n], input[n + 1]);
      var bytes := Decoded(input).value;
      assert bytes[..|bytes| - 1] == Decoded(input[..n]).value;
      assert Lower(input) == Lower(input[..n]) + [LowerDigit(input[n]), LowerDigit(input[n + 1])];
    }
  }

  // ---- identifiers ----

  function Power16(n: nat): (r: nat)
    ensures r > 0
  {
    if n == 0 then 1 else 16 * Power16(n - 1)
  }

  function Fixed(value: nat, digits: nat): (r: Text)
    ensures |r| == digits
  {
    if digits == 0 then [] else Fixed(value / 16, digits - 1) + [Digit(value % 16)]
  }

  /** snprintf with "%016llx". */
  function IdString(id: uint64): Text {
    Fixed(id, 16)
  }

  function Value(t: Text): Option<nat> {
    if t == [] then Some(0)
    else
      match (Value(t[..|t| - 1]), DigitValue(t[|t| - 1]))
      case (Some(front), Some(digit)) => Some(16 * front + digit)
      case _ => None
  }

  function ParseId(t: Text): Option<uint64> {
    if t == [] || |t| > 16 then None
    else
      ValueBelow(t, 16);
      match Value(t)
      case None => None
      case Some(value) => Some(value)
  }

  lemma {:induction false} ValueBelow(t: Text, digits: nat)
    requires |t| <= digits <= 16
    ensures Value(t).Some? ==> Value(t).value < Power16(digits)
    ensures Power16(digits) <= 0x1_0000_0000_0000_0000
    decreases digits
  {
    Power16Bound(digits);
    if t != [] {
      ValueBelow(t[..|t| - 1], digits - 1);
    }
  }

  lemma {:induction false} Power16Bound(n: nat)
    requires n <= 16
    ensures Power16(n) <= Power16(16) == 0x1_0000_0000_0000_0000
    decreases 16 - n
  {
    if n == 16 {
      assert Power16(12) == 0x1_0000_0000_0000 by {
        assert Power16(8) == 0x1_0000_0000 by {
          assert Power16(4) == 0x1_0000;
        }
      }
    } else {
      Power16Bound(n + 1);
    }
  }

  lemma {:induction false} FixedRoundTrip(value: nat, digits: nat)
    requires value < Power16(digits)
    ensures Value(Fixed(value, digits)) == Some(value)
    decreases digits
  {
    if digits > 0 {
      FixedRoundTrip(value / 16, digits - 1);
      DigitRoundTrip(value % 16);
      var front := Fixed(value / 16, digits - 1);
      assert (front + [Digit(value % 16)])[..digits - 1] == front;
    }
  }

  lemma IdRoundTrip(id: uint64)
    ensures ParseId(IdString(id)) == Some(id)
  {
    Power16Bound(16);
    FixedRoundTrip(id, 16);
  }
}
