/** What single specifications print, in terms of the record, and how any text can be written. */
module FormatFields {
  import opened Wrappers
  import opened Format
  import opened FormatOutput

  // ---- numbers ----

  predicate IsDigit(c: char) {
    '0' <= c <= '9'
  }

  /** A non-empty run of decimal digits. */
  function ReadDigits(s: string): Option<nat> {
    if s == "" || !IsDigit(s[|s| - 1]) then None
    else
      var digit := s[|s| - 1] as int - 48;
      if |s| == 1 then Some(digit)
      else
        match ReadDigits(s[..|s| - 1])
        case None => None
        case Some(front) => Some(10 * front + digit)
  }

  function ReadInt(s: string): Option<int> {
    var negative := s != "" && s[0] == '-';
    var n := ReadDigits(if negative then s[1..] else s);
    if n.None? then None else Option<int>.Some(if negative then 0 - n.value else n.value)
  }

  lemma {:induction false} DigitsRead(n: nat)
    ensures Digits(n) != "" && ReadDigits(Digits(n)) == Some(n)
    ensures IsDigit(Digits(n)[0]) && (n > 0 ==> Digits(n)[0] != '0') && (n == 0 ==> |Digits(n)| == 1)
    decreases n
  {
    var c := (48 + n % 10) as char;
    if n >= 10 {
      DigitsRead(n / 10);
      assert Digits(n)[..|Digits(n)| - 1] == Digits(n / 10);
    }
  }

  /** The shortest numeral of the number. */
  predicate Numeral(s: string, n: int) {
    && ReadInt(s) == Some(n)
    && (n == 0 ==> |s| == 1) && (n > 0 ==> s[0] != '0') && (n < 0 ==> |s| > 1 && s[0] == '-' && s[1] != '0')
  }

  lemma DecimalReads(n: int)
    ensures Numeral(Decimal(n), n)
  {
    DigitsRead(if n < 0 then -n else n);
    hide Digits, ReadDigits;
    if n < 0 {
      assert Decimal(n)[1..] == Digits(-n);
    }
  }

  // ---- fields ----

  /** What the record says the field is. */
  predicate Shows(field: Field, r: Record, text: string) {
    match field
    case File => text == r.file
    case Variant => text == r.variant
    case VariantFile =>
      |text| == |r.variant| + 1 + |r.file| && text[..|r.variant|] == r.variant && text[|r.variant|] == ':'
      && text[|r.variant| + 1..] == r.file
    case Line => Numeral(text, r.line)
    case Column => Numeral(text, r.column)
    case Context => r.context == Some(text) || (r.context.None? && text == "")
    case Symbol => text == r.symbol
    case RecordName =>
      && (text == "reference" <==> !r.symbolRecord)
      && (text == "definition" <==> r.symbolRecord && r.definition)
      && (text == "declaration" <==> r.symbolRecord && !r.definition)
    case Mode =>
      && (!r.symbolRecord ==> text == r.modeName)
      && (r.symbolRecord ==> text == if r.definition then "def" else "decl")
    case Kind => text == r.kindName
    case KindChar => |text| == 1 && text[0] == r.kindChar
    case Source => r.sourceLine == Some(text)
  }

  lemma ExpandedShows(field: Field, r: Record)
    ensures Expanded(field, r).None? <==> field.Source? && r.sourceLine.None?
    ensures Expanded(field, r).Some? ==> Shows(field, r, Expanded(field, r).value)
  {
    DecimalReads(r.line);
    DecimalReads(r.column);
    KindsDiffer();
    hide Decimal, Numeral;
  }

  lemma KindsDiffer()
    ensures "reference" != "definition" && "reference" != "declaration" && "definition" != "declaration"
  {
    assert |"reference"| != |"definition"| && |"reference"| != |"declaration"| && |"definition"| != |"declaration"|;
  }

  function Specification(field: Field): string {
    "%{" + NameOf(field) + "}"
  }

  lemma NoBrace(field: Field)
    ensures '}' !in NameOf(field)
  {
  }

  lemma {:induction false} FindAt(s: string, c: char, from: nat, at: nat)
    requires from <= at < |s| && s[at] == c && forall i | from <= i < at :: s[i] != c
    ensures Find(s, c, from) == Some(at)
    decreases at - from
  {
    if from < at {
      FindAt(s, c, from + 1, at);
    }
  }

  lemma SpecificationReads(field: Field)
    ensures Pieces(Specification(field)) == Some([Expansion(field)])
  {
    var name, format := NameOf(field), Specification(field);
    var end := |name| + 2;
    NoBrace(field);
    FieldsHaveNames(name, field);
    hide NameOf;
    assert format[2..end] == name && format[end] == '}';
    forall i | 2 <= i < end ensures format[i] != '}' {
      assert format[i] == name[i - 2];
    }
    FindAt(format, '}', 2, end);
    hide FieldNamed;
    assert PiecesFrom(format, end + 1) == Some([]);
    assert [Expansion(field)] + [] == [Expansion(field)];
  }

  /** The specification of a field prints what the record says; only an unreadable source line fails. */
  lemma FieldPrints(field: Field, r: Record)
    ensures var format := Specification(field);
            && Pieces(format).Some?
            && (RenderLine(format, r).ok <==> !(field.Source? && r.sourceLine.None?))
            && (RenderLine(format, r).ok ==>
                  exists text :: RenderLine(format, r).text == text + "\n" && Shows(field, r, text))
            && (!RenderLine(format, r).ok ==> RenderLine(format, r).text == "")
  {
    SpecificationReads(field);
    ExpandedShows(field, r);
    hide Pieces, Expanded, Shows;
    assert Render([Expansion(field)][1..], r) == Written("", true);
    if Expanded(field, r).Some? {
      assert Expanded(field, r).value + "" == Expanded(field, r).value;
    }
  }

  // ---- escapes ----

  /** A backslash and a character: tab, carriage return and newline for t, r and n, the character itself otherwise. */
  lemma EscapeWrites(c: char, r: Record)
    ensures var format := ['\\', c];
            && Pieces(format).Some? && RenderLine(format, r).ok && |RenderLine(format, r).text| == 2
            && RenderLine(format, r).text[1] == '\n'
            && var shown := RenderLine(format, r).text[0];
            && (c == 't' ==> shown as int == 9) && (c == 'r' ==> shown as int == 13)
            && (c == 'n' ==> shown as int == 10)
            && (c != 't' && c != 'r' && c != 'n' ==> shown == c)
  {
    var format := ['\\', c];
    assert PiecesFrom(format, 2) == Some([]);
    assert [Char(Escaped(c))] + [] == [Char(Escaped(c))];
    assert Pieces(format) == Some([Char(Escaped(c))]);
    assert Render([Char(Escaped(c))][1..], r) == Written("", true);
    assert [Escaped(c)] + "" == [Escaped(c)];
  }

  /** A format that writes the text: percent signs and backslashes are doubled. */
  function Quoted(text: string): string {
    if text == "" then ""
    else if text[0] == '%' then "%%" + Quoted(text[1..])
    else if text[0] == '\\' then "\\\\" + Quoted(text[1..])
    else [text[0]] + Quoted(text[1..])
  }

  lemma {:induction false} QuotedReads(before: string, text: string)
    ensures PiecesFrom(before + Quoted(text), |before|) == Some(Chars(text))
    decreases |text|
  {
    var format := before + Quoted(text);
    if text == "" {
      assert Chars("") == [];
    } else {
      var head := if text[0] == '%' then "%%" else if text[0] == '\\' then "\\\\" else [text[0]];
      QuotedReads(before + head, text[1..]);
      assert format == before + head + Quoted(text[1..]);
      assert format[|before|] == head[0] && (|head| == 2 ==> format[|before| + 1] == head[1]);
      assert Chars(text) == [Char(text[0])] + Chars(text[1..]);
    }
  }

  /** Every text has a format that writes it for every record. */
  lemma AnyTextIsWritten(text: string, r: Record)
    ensures Pieces(Quoted(text)) == Some(Chars(text))
    ensures RenderLine(Quoted(text), r) == Written(text + "\n", true)
  {
    assert "" + Quoted(text) == Quoted(text);
    QuotedReads("", text);
    RenderChars(text, r);
  }
}
