/** index_db_output: compile_format fills the token array, index_db_output_write executes it. */
module FormatOutput {
  import opened Wrappers
  import opened Format

  /** The name that the format specification gives a field. */
  function NameOf(field: Field): string {
    match field
    case File => "file"
    case Variant => "variant"
    case VariantFile => "variant_file"
    case Line => "line"
    case Column => "column"
    case Context => "context"
    case Symbol => "symbol"
    case RecordName => "record"
    case Mode => "mode"
    case Kind => "kind"
    case KindChar => "kind_char"
    case Source => "source"
  }

  lemma {:induction false} NamedInTable(name: string, fields: seq<(string, Field)>)
    ensures FieldNamed(name, fields).Some? ==> (name, FieldNamed(name, fields).value) in fields
    ensures (exists i :: 0 <= i < |fields| && fields[i].0 == name) ==> FieldNamed(name, fields).Some?
  {
    if fields != [] {
      NamedInTable(name, fields[1..]);
      if i :| 0 <= i < |fields| && fields[i].0 == name && fields[0].0 != name {
        assert fields[1..][i - 1] == fields[i];
      }
    }
  }

  function Place(field: Field): nat {
    match field
    case File => 0
    case Variant => 1
    case VariantFile => 2
    case Line => 3
    case Column => 4
    case Context => 5
    case Symbol => 6
    case RecordName => 7
    case Mode => 8
    case Kind => 9
    case KindChar => 10
    case Source => 11
  }

  lemma TableRow(field: Field)
    ensures Place(field) < |FIELDS| && FIELDS[Place(field)] == (NameOf(field), field)
  {
  }

  /** Length and the first two characters tell the names apart. */
  lemma NamesDiffer(a: Field, b: Field)
    requires a != b
    ensures NameOf(a) != NameOf(b)
  {
    var x, y := NameOf(a), NameOf(b);
    assert |x| != |y| || x[0] != y[0] || x[1] != y[1];
  }

  lemma RowField(i: nat)
    requires i < |FIELDS|
    ensures Place(FIELDS[i].1) == i
  {
  }

  /** Every field has its name, and no other name is known. */
  lemma FieldsHaveNames(name: string, field: Field)
    ensures FieldNamed(name, FIELDS) == Some(field) <==> name == NameOf(field)
  {
    hide FIELDS, NameOf, Place, FieldNamed;
    NamedInTable(name, FIELDS);
    TableRow(field);
    var found := FieldNamed(name, FIELDS);
    if found.Some? {
      var i :| 0 <= i < |FIELDS| && FIELDS[i] == (name, found.value);
      RowField(i);
      TableRow(found.value);
      if found.value != field {
        NamesDiffer(found.value, field);
      }
    } else {
      assert FIELDS[Place(field)].0 == NameOf(field);
    }
  }

  /** Pieces that only stand for themselves. */
  predicate Plain(format: string, from: nat, to: nat)
    requires from <= to <= |format|
  {
    forall i | from <= i < to :: format[i] != '\\' && format[i] != '%'
  }

  /** A run of plain characters reads as those characters. */
  lemma {:induction false} PlainPieces(format: string, from: nat, to: nat)
    requires from <= to <= |format| && Plain(format, from, to)
    ensures PiecesFrom(format, from) == Prepend(Chars(format[from..to]), PiecesFrom(format, to))
    decreases |format| - from
  {
    if from == to {
      assert Chars(format[from..to]) == [];
      if PiecesFrom(format, to).Some? {
        assert [] + PiecesFrom(format, to).value == PiecesFrom(format, to).value;
      }
    } else {
      PlainPieces(format, from + 1, to);
      assert format[from..to] == [format[from]] + format[from + 1..to];
      assert Chars(format[from..to]) == [Char(format[from])] + Chars(format[from + 1..to]);
      PrependTwice([Char(format[from])], Chars(format[from + 1..to]), PiecesFrom(format, to));
    }
  }

  /** The tokens so far stand for the format up to a place. */
  ghost predicate StandsFor(format: string, tokens: seq<Token>, place: nat) {
    && place <= |format| && |tokens| <= place && (forall t | t in tokens :: Inside(format, t))
    && Pieces(format) == Prepend(Meanings(format, tokens), PiecesFrom(format, place))
  }

  lemma NoTokens(format: string)
    ensures StandsFor(format, [], 0)
  {
    if Pieces(format).Some? {
      assert [] + Pieces(format).value == Pieces(format).value;
    }
  }

  lemma TextStandsFor(format: string, tokens: seq<Token>, text: nat, p: nat)
    requires StandsFor(format, tokens, text) && text < p <= |format| && Plain(format, text, p)
    ensures StandsFor(format, tokens + [Text(text, p - text)], p)
  {
    hide PiecesFrom, Meanings;
    PlainPieces(format, text, p);
    OneMoreToken(format, tokens, Text(text, p - text));
    PrependTwice(Meanings(format, tokens), Chars(format[text..p]), PiecesFrom(format, p));
  }

  lemma TokenStandsFor(format: string, tokens: seq<Token>, p: nat, t: Token, next: nat)
    requires StandsFor(format, tokens, p) && p < next <= |format| && Inside(format, t)
    requires PiecesFrom(format, p) == Prepend(Meaning(format, t), PiecesFrom(format, next))
    ensures StandsFor(format, tokens + [t], next)
  {
    hide PiecesFrom, Meanings;
    OneMoreToken(format, tokens, t);
    PrependTwice(Meanings(format, tokens), Meaning(format, t), PiecesFrom(format, next));
  }

  class IndexDbOutput {
    var format: string
    var tokens: array<Token>
    var tokenCount: nat
    var out: string

    ghost predicate Allocated()
      reads this
    {
      tokens.Length == |format| + 1 && tokenCount <= |format|
    }

    ghost function Used(): seq<Token>
      reads this, tokens
      requires Allocated()
    {
      tokens[..tokenCount]
    }

    /** Compiled: the whole format, in at most as many tokens as it has characters. */
    ghost predicate Valid()
      reads this, tokens
    {
      Allocated() && StandsFor(format, Used(), |format|) && Pieces(format).Some?
    }

    method AddToken(t: Token)
      requires tokenCount < tokens.Length
      modifies this`tokenCount, tokens
      ensures tokenCount == old(tokenCount) + 1 && tokens[..tokenCount] == old(tokens[..tokenCount]) + [t]
    {
      tokens[tokenCount] := t;
      tokenCount := tokenCount + 1;
    }

    /** add_character_token and add_field_token. */
    method Append(t: Token, ghost p: nat, ghost next: nat)
      requires Allocated() && StandsFor(format, Used(), p) && p < next <= |format| && Inside(format, t)
      requires PiecesFrom(format, p) == Prepend(Meaning(format, t), PiecesFrom(format, next))
      modifies this`tokenCount, tokens
      ensures Allocated() && StandsFor(format, Used(), next)
    {
      hide PiecesFrom;
      TokenStandsFor(format, tokens[..tokenCount], p, t, next);
      AddToken(t);
    }

    /** add_text_token: nothing for an empty text. */
    method AddText(text: nat, p: nat)
      requires Allocated() && StandsFor(format, Used(), text) && text <= p <= |format| && Plain(format, text, p)
      modifies this`tokenCount, tokens
      ensures Allocated() && StandsFor(format, Used(), p)
    {
      if text == p {
        return;
      }
      TextStandsFor(format, tokens[..tokenCount], text, p);
      AddToken(Text(text, p - text));
    }

    method FindField(name: string) returns (field: Option<Field>)
      ensures field == FieldNamed(name, FIELDS)
    {
      var i := 0;
      while i < |FIELDS|
        invariant 0 <= i <= |FIELDS| && FieldNamed(name, FIELDS) == FieldNamed(name, FIELDS[i..])
      {
        if FIELDS[i].0 == name {
          return Some(FIELDS[i].1);
        }
        i := i + 1;
      }
      return None;
    }

    /** parse_field: the field and the place of its closing brace. */
    method ParseField(p: nat) returns (field: Option<Field>, end: nat)
      requires p < |format| && format[p] == '%' && !(p + 1 < |format| && format[p + 1] == '%')
      ensures field.None? ==> PiecesFrom(format, p).None?
      ensures field.Some? ==>
                && p < end < |format|
                && PiecesFrom(format, p) == Prepend([Expansion(field.value)], PiecesFrom(format, end + 1))
    {
      end := p;
      if p + 1 == |format| || format[p + 1] != '{' {
        return None, end;
      }
      var close := Find(format, '}', p + 2);
      if close.None? {
        return None, end;
      }
      end := close.value;
      field := FindField(format[p + 2..end]);
    }

    constructor (format: string)
      ensures this.format == format && Allocated() && tokenCount == 0 && out == "" && fresh(tokens)
    {
      this.format := format;
      tokens := new Token[|format| + 1](i => Character(' '));
      tokenCount := 0;
      out := "";
    }

    method CompileFormat() returns (ok: bool)
      requires Allocated() && tokenCount == 0
      modifies this`tokenCount, tokens
      ensures ok <==> Pieces(format).Some?
      ensures ok ==> Valid()
    {
      hide PiecesFrom, StandsFor;
      NoTokens(format);
      assert tokens[..0] == [];
      var text, p := 0, 0;
      while p < |format|
        invariant 0 <= text <= p <= |format| && Allocated()
        invariant StandsFor(format, Used(), text) && Plain(format, text, p)
      {
        if format[p] != '\\' && format[p] != '%' {
          p := p + 1;
          continue;
        }
        AddText(text, p);
        if format[p] == '\\' {
          if p + 1 == |format| {
            text := p + 1;
            p := p + 1;
            LoneBackslash(format, Used());
            break;
          }
          EscapePieces(format, p);
          Append(Character(Escaped(format[p + 1])), p, p + 2);
          p := p + 2;
          text := p;
          continue;
        }
        if p + 1 < |format| && format[p + 1] == '%' {
          PercentPieces(format, p);
          Append(Character('%'), p, p + 2);
          p := p + 2;
          text := p;
          continue;
        }
        var field, end := ParseField(p);
        if field.None? {
          Malformed(format, Used(), p);
          return false;
        }
        Append(FieldToken(field.value), p, end + 1);
        p := end + 1;
        text := p;
      }
      AddText(text, p);
      MeaningIsWhole(format, Used());
      return true;
    }

    /** index_db_output_write. */
    method Write(r: Record) returns (ok: bool)
      requires Valid()
      modifies this`out
      ensures var w := RenderLine(format, r); out == old(out) + w.text && ok == w.ok
    {
      hide Expanded, PiecesFrom, StandsFor, Render, Meanings, Pieces;
      MeaningIsWhole(format, Used());
      NothingRendered(format, r);
      assert tokens[..0] == [] && tokens[..tokenCount] == Used();
      ghost var before := out;
      var i := 0;
      while i < tokenCount
        invariant 0 <= i <= tokenCount && forall t | t in tokens[..i] :: Inside(format, t)
        invariant Render(Meanings(format, tokens[..i]), r).ok
        invariant out == before + Render(Meanings(format, tokens[..i]), r).text
      {
        var token := tokens[i];
        assert token in Used();
        assert tokens[..i + 1] == tokens[..i] + [token];
        TokenRenders(format, tokens[..i], token, r);
        if token.Text? {
          out := out + format[token.start..token.start + token.length];
        } else if token.Character? {
          out := out + [token.c];
        } else {
          var text := Expanded(token.field, r);
          if text.None? {
            assert Used()[..i + 1] == tokens[..i + 1];
            FailureIsFinal(format, Used(), i + 1, r);
            return false;
          }
          out := out + text.value;
        }
        i := i + 1;
      }
      out := out + "\n";
      return true;
    }
  }

  lemma Malformed(format: string, tokens: seq<Token>, p: nat)
    requires StandsFor(format, tokens, p) && PiecesFrom(format, p).None?
    ensures Pieces(format).None?
  {
  }

  lemma NothingRendered(format: string, r: Record)
    ensures Render(Meanings(format, []), r) == Written("", true)
  {
  }

  lemma LoneBackslash(format: string, tokens: seq<Token>)
    requires format != [] && StandsFor(format, tokens, |format| - 1) && format[|format| - 1] == '\\'
    ensures StandsFor(format, tokens, |format|)
  {
    hide Meanings;
  }

  lemma EscapePieces(format: string, p: nat)
    requires p + 1 < |format| && format[p] == '\\'
    ensures PiecesFrom(format, p) == Prepend([Char(Escaped(format[p + 1]))], PiecesFrom(format, p + 2))
  {
  }

  lemma PercentPieces(format: string, p: nat)
    requires p + 1 < |format| && format[p] == '%' && format[p + 1] == '%'
    ensures PiecesFrom(format, p) == Prepend([Char('%')], PiecesFrom(format, p + 2))
  {
  }

  lemma EndPieces(format: string)
    ensures PiecesFrom(format, |format|) == Some([])
  {
  }

  lemma MeaningIsWhole(format: string, tokens: seq<Token>)
    requires StandsFor(format, tokens, |format|)
    ensures forall t | t in tokens :: Inside(format, t)
    ensures Pieces(format) == Some(Meanings(format, tokens))
  {
    EndPieces(format);
    assert Meanings(format, tokens) + [] == Meanings(format, tokens);
  }

  /** One token more writes its own text after the text so far. */
  lemma TokenRenders(format: string, tokens: seq<Token>, t: Token, r: Record)
    requires Inside(format, t) && (forall u | u in tokens :: Inside(format, u))
    requires Render(Meanings(format, tokens), r).ok
    ensures var front := Render(Meanings(format, tokens), r).text;
            Render(Meanings(format, tokens + [t]), r)
            == if t.Text? then Written(front + format[t.start..t.start + t.length], true)
               else if t.Character? then Written(front + [t.c], true)
               else if Expanded(t.field, r).None? then Written(front, false)
               else Written(front + Expanded(t.field, r).value, true)
  {
    hide Expanded, Meanings;
    OneMoreToken(format, tokens, t);
    RenderConcat(Meanings(format, tokens), Meaning(format, t), r);
    match t
    case Text(start, length) => RenderChars(format[start..start + length], r);
    case Character(c) => RenderOne(Char(c), r);
    case FieldToken(field) => RenderOne(Expansion(field), r);
  }

  lemma RenderOne(p: Piece, r: Record)
    ensures Render([p], r)
            == if p.Char? then Written([p.c], true)
               else if Expanded(p.field, r).None? then Written("", false)
               else Written(Expanded(p.field, r).value, true)
  {
    hide Expanded;
    assert [p][1..] == [];
    assert Render([], r) == Written("", true);
  }

  /** After a failed field nothing more is written. */
  lemma {:induction false} FailureIsFinal(format: string, tokens: seq<Token>, n: nat, r: Record)
    requires n <= |tokens| && (forall t | t in tokens :: Inside(format, t))
    requires !Render(Meanings(format, tokens[..n]), r).ok
    ensures Render(Meanings(format, tokens), r) == Render(Meanings(format, tokens[..n]), r)
    decreases |tokens|
  {
    if n < |tokens| {
      var front := tokens[..|tokens| - 1];
      assert front[..n] == tokens[..n];
      FailureIsFinal(format, front, n, r);
      RenderConcat(Meanings(format, front), Meaning(format, tokens[|tokens| - 1]), r);
    } else {
      assert tokens[..n] == tokens;
    }
  }
}
