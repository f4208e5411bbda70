/** Output formats of `semindex search` (lib/semindex_index_db/index_db_output.c): a format is compiled to tokens once
    and executed for every record. */
module Format {
  import opened Wrappers

  datatype Field =
    | File | Variant | VariantFile | Line | Column | Context | Symbol | RecordName | Mode | Kind | KindChar | Source

  const FIELDS: seq<(string, Field)> := [
    ("file", File), ("variant", Variant), ("variant_file", VariantFile), ("line", Line), ("column", Column),
    ("context", Context), ("symbol", Symbol), ("record", RecordName), ("mode", Mode), ("kind", Kind),
    ("kind_char", KindChar), ("source", Source)]

  /** modeName, kindName and kindChar come from the name tables; sourceLine is None when the line cannot be read. */
  datatype Record = Record(
    file: string, variant: string, line: int, column: int, context: Option<string>, symbol: string,
    symbolRecord: bool, definition: bool, modeName: string, kindName: string, kindChar: char,
    sourceLine: Option<string>)

  // ---- the meaning of a format, one character at a time ----

  datatype Piece = Char(c: char) | Expansion(field: Field)

  function FieldNamed(name: string, fields: seq<(string, Field)>): Option<Field> {
    if fields == [] then None
    else if fields[0].0 == name then Some(fields[0].1)
    else FieldNamed(name, fields[1..])
  }

  /** The place of the first c at or after the given one. */
  function Find(s: string, c: char, from: nat): (r: Option<nat>)
    ensures r.Some? ==> from <= r.value < |s| && s[r.value] == c && c !in s[from..r.value]
    ensures r.None? ==> from > |s| || c !in s[from..]
    decreases |s| - from
  {
    if from >= |s| then None else if s[from] == c then Some(from) else Find(s, c, from + 1)
  }

  function Escaped(c: char): char {
    match c
    case 't' => '\t'
    case 'r' => '\r'
    case 'n' => '\n'
    case _ => c
  }

  function Prepend(front: seq<Piece>, rest: Option<seq<Piece>>): Option<seq<Piece>> {
    match rest
    case None => None
    case Some(pieces) => Some(front + pieces)
  }

  /** The format from place p on; None when it is malformed. A lone backslash at the end stands for nothing. */
  function PiecesFrom(format: string, p: nat): Option<seq<Piece>>
    requires p <= |format|
    decreases |format| - p
  {
    if p == |format| then Some([])
    else if format[p] == '\\' then
      if p + 1 == |format| then Some([])
      else Prepend([Char(Escaped(format[p + 1]))], PiecesFrom(format, p + 2))
    else if format[p] == '%' then
      if p + 1 == |format| then None
      else if format[p + 1] == '%' then Prepend([Char('%')], PiecesFrom(format, p + 2))
      else if format[p + 1] != '{' then None
      else
        match Find(format, '}', p + 2)
        case None => None
        case Some(end) =>
          match FieldNamed(format[p + 2..end], FIELDS)
          case None => None
          case Some(field) => Prepend([Expansion(field)], PiecesFrom(format, end + 1))
    else Prepend([Char(format[p])], PiecesFrom(format, p + 1))
  }

  function Pieces(format: string): Option<seq<Piece>> {
    PiecesFrom(format, 0)
  }

  function Digits(n: nat): string {
    (if n < 10 then "" else Digits(n / 10)) + [(48 + n % 10) as char]
  }

  function Decimal(n: int): string {
    if n < 0 then "-" + Digits(-n) else Digits(n)
  }

  function RecordKind(r: Record): string {
    if !r.symbolRecord then "reference" else if r.definition then "definition" else "declaration"
  }

  /** What a field stands for; None when writing it fails. */
  function Expanded(field: Field, r: Record): Option<string> {
    match field
    case File => Some(r.file)
    case Variant => Some(r.variant)
    case VariantFile => Some(r.variant + ":" + r.file)
    case Line => Some(Decimal(r.line))
    case Column => Some(Decimal(r.column))
    case Context => Some(if r.context.Some? then r.context.value else "")
    case Symbol => Some(r.symbol)
    case RecordName => Some(RecordKind(r))
    case Mode => Some(if !r.symbolRecord then r.modeName else if r.definition then "def" else "decl")
    case Kind => Some(r.kindName)
    case KindChar => Some([r.kindChar])
    case Source => r.sourceLine
  }

  /** Text written, and whether all of it was. */
  datatype Written = Written(text: string, ok: bool)

  function Render(pieces: seq<Piece>, r: Record): Written {
    if pieces == [] then Written("", true)
    else
      match pieces[0]
      case Char(c) => (var rest := Render(pieces[1..], r); Written([c] + rest.text, rest.ok))
      case Expansion(field) =>
        match Expanded(field, r)
        case None => Written("", false)
        case Some(text) => (var rest := Render(pieces[1..], r); Written(text + rest.text, rest.ok))
  }

  /** One record: a line, or what was written before a field failed. */
  function RenderLine(format: string, r: Record): Written
    requires Pieces(format).Some?
  {
    var w := Render(Pieces(format).value, r);
    if w.ok then Written(w.text + "\n", true) else w
  }

  // ---- compiled formats ----

  /** A text token points into the format. */
  datatype Token = Text(start: nat, length: nat) | Character(c: char) | FieldToken(field: Field)

  function Chars(s: string): seq<Piece> {
    seq(|s|, i requires 0 <= i < |s| => Char(s[i]))
  }

  predicate Inside(format: string, t: Token) {
    t.Text? ==> t.start + t.length <= |format|
  }

  function Meaning(format: string, t: Token): seq<Piece>
    requires Inside(format, t)
  {
    match t
    case Text(start, length) => Chars(format[start..start + length])
    case Character(c) => [Char(c)]
    case FieldToken(field) => [Expansion(field)]
  }

  function Meanings(format: string, tokens: seq<Token>): seq<Piece>
    requires forall t | t in tokens :: Inside(format, t)
  {
    if tokens == [] then []
    else Meanings(format, tokens[..|tokens| - 1]) + Meaning(format, tokens[|tokens| - 1])
  }

  lemma OneMoreToken(format: string, tokens: seq<Token>, t: Token)
    requires Inside(format, t) && forall u | u in tokens :: Inside(format, u)
    ensures Meanings(format, tokens + [t]) == Meanings(format, tokens) + Meaning(format, t)
  {
    assert (tokens + [t])[..|tokens|] == tokens;
  }

  lemma PrependTwice(a: seq<Piece>, b: seq<Piece>, rest: Option<seq<Piece>>)
    ensures Prepend(a, Prepend(b, rest)) == Prepend(a + b, rest)
  {
    if rest.Some? {
      assert a + (b + rest.value) == a + b + rest.value;
    }
  }

  lemma {:induction false} RenderConcat(a: seq<Piece>, b: seq<Piece>, r: Record)
    ensures Render(a + b, r)
            == if Render(a, r).ok then Written(Render(a, r).text + Render(b, r).text, Render(b, r).ok)
               else Render(a, r)
  {
    hide Expanded;
    if a == [] {
      assert a + b == b;
    } else {
      assert (a + b)[1..] == a[1..] + b;
      RenderConcat(a[1..], b, r);
    }
  }

  lemma {:induction false} RenderChars(s: string, r: Record)
    ensures Render(Chars(s), r) == Written(s, true)
  {
    if s != [] {
      assert Chars(s)[1..] == Chars(s[1..]);
      RenderChars(s[1..], r);
    }
  }
}
