/** The JSON that command_db_export.c writes for strings and argument vectors, and section 7 of RFC 8259. */
module JsonExport {
  import opened Wrappers
  import opened Index
  import opened Arguments
  import Hex
  import Utf16
  import Utf16Results

  const QUOTE: byte := 34
  const COMMA: byte := 44
  const SPACE: byte := 32
  const BACKSLASH: byte := 92
  const OPEN: byte := 91
  const CLOSE: byte := 93
  const LETTER_U: byte := 117

  // ---- what is written ----

  /** The letter of a two-character escape. */
  function ShortEscape(b: byte): Option<byte> {
    var n := b as int;
    if n == 34 || n == 92 then Some(b)
    else if n == 8 then Some(98)
    else if n == 12 then Some(102)
    else if n == 10 then Some(110)
    else if n == 13 then Some(114)
    else if n == 9 then Some(116)
    else None
  }

  function EscapedByte(b: byte): Text {
    if ShortEscape(b).Some? then [BACKSLASH, ShortEscape(b).value]
    else if b < 32 then [BACKSLASH, LETTER_U] + Hex.Fixed(b as int, 4)
    else [b]
  }

  function EscapedText(value: Text): Text {
    if value == [] then [] else EscapedText(value[..|value| - 1]) + EscapedByte(value[|value| - 1])
  }

  function JsonString(value: Text): Text {
    [QUOTE] + EscapedText(value) + [QUOTE]
  }

  /** Strings with separators. */
  function Listed(args: seq<Text>): Text {
    if args == [] then []
    else Listed(args[..|args| - 1]) + (if |args| == 1 then [] else [COMMA, SPACE]) + JsonString(args[|args| - 1])
  }

  class Output {
    var text: Text

    constructor ()
      ensures text == []
    {
      text := [];
    }

    method WriteJsonString(value: Text)
      modifies this
      ensures text == old(text) + JsonString(value)
    {
      hide ShortEscape, Hex.Fixed;
      text := text + [QUOTE];
      for i := 0 to |value|
        invariant text == old(text) + [QUOTE] + EscapedText(value[..i])
      {
        assert value[..i + 1][..i] == value[..i];
        var ch := value[i];
        var escape := ShortEscape(ch);
        if escape.Some? {
          text := text + [BACKSLASH, escape.value];
        } else if ch < 32 {
          text := text + [BACKSLASH, LETTER_U] + Hex.Fixed(ch as int, 4);
        } else {
          text := text + [ch];
        }
      }
      assert value[..|value|] == value;
      text := text + [QUOTE];
    }

    /** false for a blob whose last string is not terminated; the strings before it have been written then. */
    method WriteArguments(blob: Text) returns (ok: bool)
      modifies this
      ensures ok <==> blob == [] || WellFormed(blob)
      ensures text == old(text) + [OPEN] + Listed(Strings(blob, 0)) + if ok then [CLOSE] else []
    {
      hide Listed, JsonString, Terminator, Strings;
      text := text + [OPEN];
      var offset: nat := 0;
      var first := true;
      ghost var written: seq<Text> := [];
      assert [] + Strings(blob, 0) == Strings(blob, 0);
      NothingListed();
      while offset < |blob|
        invariant offset <= |blob| && (first <==> written == [])
        invariant offset > 0 ==> blob[offset - 1] == NUL
        invariant Strings(blob, 0) == written + Strings(blob, offset)
        invariant text == old(text) + [OPEN] + Listed(written)
        decreases |blob| - offset
      {
        var end := FindTerminator(blob, offset);
        if end == |blob| {
          NotTerminated(blob, offset);
          assert written + [] == written;
          return false;
        }
        StringsStep(blob, offset);
        OneMoreListed(written, blob[offset..end]);
        if !first {
          text := text + [COMMA, SPACE];
        }
        WriteJsonString(blob[offset..end]);
        written := written + [blob[offset..end]];
        first := false;
        offset := end + 1;
      }
      NoString(blob);
      assert written + [] == written;
      text := text + [CLOSE];
      return true;
    }

    /** memchr. */
    method FindTerminator(blob: Text, offset: nat) returns (end: nat)
      requires offset <= |blob|
      ensures end == Terminator(blob, offset)
    {
      end := offset;
      while end < |blob| && blob[end] != NUL
        invariant offset <= end <= |blob| && Terminator(blob, offset) == Terminator(blob, end)
      {
        end := end + 1;
      }
    }
  }

  lemma NothingListed()
    ensures Listed([]) == []
  {
  }

  lemma OneMoreListed(args: seq<Text>, arg: Text)
    ensures Listed(args + [arg]) == Listed(args) + (if args == [] then [] else [COMMA, SPACE]) + JsonString(arg)
  {
    assert (args + [arg])[..|args|] == args;
  }

  lemma NotTerminated(blob: Text, offset: nat)
    requires offset < |blob| && Terminator(blob, offset) == |blob|
    ensures blob[|blob| - 1] != NUL && Strings(blob, offset) == []
  {
    if blob[|blob| - 1] == NUL {
      TerminatorFound(blob, offset);
    }
  }

  // ---- how a JSON reader takes it ----

  function Put(front: Text, rest: Option<(Text, Text)>): Option<(Text, Text)> {
    if rest.None? then None else Some((front + rest.value.0, rest.value.1))
  }

  /** The character of a two-character escape. */
  function LongForm(letter: byte): Option<byte> {
    var n := letter as int;
    if n == 34 || n == 92 || n == 47 then Some(letter)
    else if n == 98 then Some(8)
    else if n == 102 then Some(12)
    else if n == 110 then Some(10)
    else if n == 114 then Some(13)
    else if n == 116 then Some(9)
    else None
  }

  /** \\uXXXX at the front: its value. */
  function Unit(text: Text): Option<nat> {
    if |text| >= 6 && text[0] == BACKSLASH && text[1] == LETTER_U then Hex.Value(text[2..6]) else None
  }

  /** The characters of a string up to its closing quote, as bytes of UTF-8, and what follows the quote. A character
      above U+FFFF is escaped as a surrogate pair. */
  function StringBody(text: Text): Option<(Text, Text)>
    decreases |text|
  {
    if text == [] then None
    else if text[0] == QUOTE then Some(([], text[1..]))
    else if text[0] < 32 then None
    else if text[0] != BACKSLASH then Put([text[0]], StringBody(text[1..]))
    else if |text| == 1 then None
    else if text[1] != LETTER_U then
      if LongForm(text[1]).None? then None else Put([LongForm(text[1]).value], StringBody(text[2..]))
    else if Unit(text).None? then None
    else
      var high := Unit(text).value;
      if Utf16.Scalar(high) then Put(Utf16Results.Encode(high), StringBody(text[6..]))
      else if Unit(text[6..]).None? || !(0xd800 <= high < 0xdc00) then None
      else
        var low := Unit(text[6..]).value;
        if !(0xdc00 <= low <= 0xdfff) then None
        else Put(Utf16Results.Encode(0x10000 + (high - 0xd800) * 0x400 + (low - 0xdc00)), StringBody(text[12..]))
  }

  function ReadString(text: Text): Option<(Text, Text)> {
    if text == [] || text[0] != QUOTE then None else StringBody(text[1..])
  }

  function SkipSpace(text: Text): (rest: Text)
    ensures |rest| <= |text|
  {
    if text != [] && (text[0] == 32 || text[0] == 9 || text[0] == 10 || text[0] == 13) then SkipSpace(text[1..])
    else text
  }

  lemma {:induction false} BodyShrinks(text: Text)
    ensures StringBody(text).Some? ==> |StringBody(text).value.1| < |text|
    decreases |text|
  {
    hide LongForm, Hex.Value, Utf16Results.Encode;
    if |text| >= 1 { BodyShrinks(text[1..]); }
    if |text| >= 2 { BodyShrinks(text[2..]); }
    if |text| >= 6 { BodyShrinks(text[6..]); }
    if |text| >= 12 { BodyShrinks(text[12..]); }
  }

  /** The strings of an array after its opening bracket: separated by commas, up to the closing bracket. */
  function Elements(text: Text): Option<(seq<Text>, Text)>
    decreases |text|
  {
    BodyShrinks(if text == [] then [] else text[1..]);
    if ReadString(text).None? then None
    else
      var first, rest := ReadString(text).value.0, SkipSpace(ReadString(text).value.1);
      if rest == [] then None
      else if rest[0] == CLOSE then Some(([first], rest[1..]))
      else if rest[0] != COMMA then None
      else
        var more := Elements(SkipSpace(rest[1..]));
        if more.None? then None else Some(([first] + more.value.0, more.value.1))
  }

  /** An array of strings, and what follows it. */
  function ReadArray(text: Text): Option<(seq<Text>, Text)> {
    if text == [] || text[0] != OPEN then None
    else
      var rest := SkipSpace(text[1..]);
      if rest != [] && rest[0] == CLOSE then Some(([], rest[1..])) else Elements(rest)
  }

  // ---- reading gives back what was written ----

  lemma ShortIsLong(b: byte)
    ensures ShortEscape(b).Some? ==> LongForm(ShortEscape(b).value) == Some(b) && ShortEscape(b).value != LETTER_U
    ensures ShortEscape(b).None? ==> b != QUOTE && b != BACKSLASH
  {
  }

  lemma ControlUnit(b: byte, more: Text)
    requires b < 32
    ensures var text := [BACKSLASH, LETTER_U] + Hex.Fixed(b as int, 4) + more;
            Unit(text) == Some(b as int) && text[6..] == more
    ensures Utf16.Scalar(b as int) && Utf16Results.Encode(b as int) == [b]
  {
    var digits := Hex.Fixed(b as int, 4);
    var text := [BACKSLASH, LETTER_U] + digits + more;
    assert text[2..6] == digits;
    assert Hex.Power16(4) == 0x1_0000;
    Hex.FixedRoundTrip(b as int, 4);
  }

  lemma EscapeReads(b: byte, more: Text)
    ensures StringBody(EscapedByte(b) + more) == Put([b], StringBody(more))
  {
    hide LongForm, ShortEscape, Unit, Utf16Results.Encode, Hex.Fixed;
    ShortIsLong(b);
    var text := EscapedByte(b) + more;
    if ShortEscape(b).Some? {
      assert text[0] == BACKSLASH && text[1] == ShortEscape(b).value && text[2..] == more;
    } else if b < 32 {
      ControlUnit(b, more);
      assert text == [BACKSLASH, LETTER_U] + Hex.Fixed(b as int, 4) + more;
      assert text[0] == BACKSLASH && text[1] == LETTER_U;
    } else {
      assert text[0] == b && text[1..] == more;
    }
  }

  lemma {:induction false} TextReads(value: Text, more: Text)
    ensures StringBody(EscapedText(value) + more) == Put(value, StringBody(more))
    decreases |value|
  {
    hide EscapedByte, StringBody;
    if value == [] {
      assert EscapedText(value) + more == more;
      if StringBody(more).Some? {
        assert [] + StringBody(more).value.0 == StringBody(more).value.0;
      }
    } else {
      var n := |value| - 1;
      var last := EscapedByte(value[n]);
      assert EscapedText(value) + more == EscapedText(value[..n]) + (last + more);
      TextReads(value[..n], last + more);
      EscapeReads(value[n], more);
      assert value == value[..n] + [value[n]];
      if StringBody(more).Some? {
        assert value[..n] + ([value[n]] + StringBody(more).value.0) == value + StringBody(more).value.0;
      }
    }
  }

  /** A written string decodes to its own bytes, whatever follows it. */
  lemma StringRoundTrip(value: Text, more: Text)
    ensures ReadString(JsonString(value) + more) == Some((value, more))
  {
    hide EscapedText;
    var text := JsonString(value) + more;
    assert text[1..] == EscapedText(value) + ([QUOTE] + more);
    TextReads(value, [QUOTE] + more);
    assert ([QUOTE] + more)[1..] == more;
    assert StringBody([QUOTE] + more) == Some(([], more));
    assert value + [] == value;
  }

  /** Strings written from the front. */
  function Separated(args: seq<Text>): Text {
    if args == [] then []
    else JsonString(args[0]) + (if |args| == 1 then [] else [COMMA, SPACE]) + Separated(args[1..])
  }

  lemma {:induction false} SeparatedAppend(args: seq<Text>, arg: Text)
    ensures Separated(args + [arg])
            == Separated(args) + (if args == [] then [] else [COMMA, SPACE]) + JsonString(arg)
  {
    hide JsonString;
    if args == [] {
      assert ([arg])[1..] == [] && args + [arg] == [arg];
    } else {
      assert (args + [arg])[1..] == args[1..] + [arg];
      SeparatedAppend(args[1..], arg);
    }
  }

  lemma {:induction false} ListedIsSeparated(args: seq<Text>)
    ensures Listed(args) == Separated(args)
  {
    hide JsonString;
    if args != [] {
      var n := |args| - 1;
      ListedIsSeparated(args[..n]);
      assert args == args[..n] + [args[n]];
      SeparatedAppend(args[..n], args[n]);
    }
  }

  lemma {:induction false} ElementsRead(args: seq<Text>, more: Text)
    requires args != []
    ensures Elements(Separated(args) + [CLOSE] + more) == Some((args, more))
    decreases |args|
  {
    hide JsonString, ReadString;
    var first := JsonString(args[0]);
    var text := Separated(args) + [CLOSE] + more;
    if |args| == 1 {
      assert args[1..] == [] && Separated(args) == first + [] + [];
      var rest := [CLOSE] + more;
      assert text == first + rest;
      StringRoundTrip(args[0], rest);
      assert SkipSpace(rest) == rest && rest[1..] == more;
      assert args == [args[0]];
    } else {
      var next := Separated(args[1..]) + [CLOSE] + more;
      var rest := [COMMA, SPACE] + next;
      assert text == first + rest;
      StringRoundTrip(args[0], rest);
      assert SkipSpace(rest) == rest && rest[1..] == [SPACE] + next;
      SeparatedStarts(args[1..], [CLOSE] + more);
      assert Separated(args[1..]) + ([CLOSE] + more) == next;
      assert ([SPACE] + next)[1..] == next;
      assert SkipSpace([SPACE] + next) == SkipSpace(next) == next;
      ElementsRead(args[1..], more);
      assert args == [args[0]] + args[1..];
    }
  }

  lemma SeparatedStarts(args: seq<Text>, more: Text)
    requires args != []
    ensures (Separated(args) + more)[0] == QUOTE && SkipSpace(Separated(args) + more) == Separated(args) + more
  {
    assert Separated(args)[0] == JsonString(args[0])[0] == QUOTE;
  }

  /** A JSON reader finds in an exported vector exactly the strings that unpack_arguments finds in its blob. */
  lemma ArgumentsRoundTrip(blob: Text, more: Text)
    ensures ReadArray([OPEN] + Listed(Strings(blob, 0)) + [CLOSE] + more) == Some((Strings(blob, 0), more))
  {
    hide Strings, JsonString, Elements;
    var args := Strings(blob, 0);
    ListedIsSeparated(args);
    var text := [OPEN] + Listed(args) + [CLOSE] + more;
    assert text[1..] == Separated(args) + ([CLOSE] + more);
    assert Separated(args) + ([CLOSE] + more) == Separated(args) + [CLOSE] + more;
    if args == [] {
      assert text[1..] == [CLOSE] + more && ([CLOSE] + more)[1..] == more;
    } else {
      SeparatedStarts(args, [CLOSE] + more);
      ElementsRead(args, more);
    }
  }

  /** Pack, store, export, read: the arguments come back. */
  lemma ExportRoundTrip(args: seq<Text>, more: Text)
    requires NulFree(args)
    ensures ReadArray([OPEN] + Listed(Strings(Packed(args), 0)) + [CLOSE] + more) == Some((args, more))
  {
    PackRoundTrip(args);
    ArgumentsRoundTrip(Packed(args), more);
  }
}
