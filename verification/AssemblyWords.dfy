/** The words of the assembly grammar: which instructions call and which directives make a function, spelled out. */
module AssemblyWords {
  import opened Wrappers
  import opened Assembly

  const CALLS: set<string> := {"call", "callq", "bl", "jbsr", "bsr"}
  const MARKERS: set<string> := {"function", "@function", "%function", "#function", "STT_FUNC"}
  const PREFIXES: set<string> := {"@", "%", "#"}

  lemma CallWords(text: string)
    ensures DirectCall(text) <==> text in CALLS
  {
  }

  lemma MarkerWords(t: Token)
    ensures FunctionMarker(t) <==> Spelling(t) in MARKERS
    ensures MarkerPrefix(t) <==> Spelling(t) in PREFIXES
  {
  }

  lemma Front(a: Token, rest: seq<Token>)
    ensures ([a] + rest)[0] == a && ([a] + rest)[1..] == rest
  {
  }

  lemma Front2(a: Token, b: Token, rest: seq<Token>)
    ensures [a, b] + rest == [a] + ([b] + rest)
  {
  }

  /** A word that is no instruction of these, in front of any stream: nothing happens. */
  lemma OtherWord(m: Token, rest: seq<Token>, order: nat)
    requires m.Identifier? ==> m.text !in CALLS && m.text != "jal" && m.text != "brasl"
    ensures Calls([m] + rest, order) == Calls(rest, order + 1)
  {
    Front(m, rest);
    if m.Identifier? {
      CallWords(m.text);
    }
    hide DirectCall;
  }

  /** call, callq, bl, jbsr or bsr in front of any stream: the token behind it is a target when it is an identifier, and
      is not read otherwise. */
  lemma DirectInstruction(m: string, t: Token, rest: seq<Token>, order: nat)
    requires m in CALLS
    ensures Calls([Identifier(m), t] + rest, order)
            == (if t.Identifier? then [Call(t.text, order + 1)] else []) + Calls(rest, order + 2)
  {
    Front2(Identifier(m), t, rest);
    Front(Identifier(m), [t] + rest);
    Front(t, rest);
    CallWords(m);
    hide DirectCall;
  }

  /** jal in front of any stream: the identifier behind it is the target unless a comma follows; then it is the link
      register, and the token behind the comma is the target when it is an identifier. */
  lemma JalInstruction(first: string, next: Token, t: Token, rest: seq<Token>, order: nat)
    ensures !next.Comma? ==>
              Calls([Identifier("jal"), Identifier(first)] + ([next] + rest), order)
              == [Call(first, order + 1)] + Calls(rest, order + 3)
    ensures Calls([Identifier("jal"), Identifier(first)] + ([Comma, t] + rest), order)
            == (if t.Identifier? then [Call(t.text, order + 3)] else []) + Calls(rest, order + 4)
  {
    CallWords("jal");
    hide DirectCall;
    if !next.Comma? {
      JalHead(first, [next] + rest, order);
      Front(next, rest);
    }
    JalHead(first, [Comma, t] + rest, order);
    Front2(Comma, t, rest);
    Front(Comma, [t] + rest);
    Front(t, rest);
  }

  lemma JalHead(first: string, rest: seq<Token>, order: nat)
    ensures Calls([Identifier("jal"), Identifier(first)] + rest, order)
            == JalEnd(Call(first, order + 1), rest, order + 2)
  {
    CallWords("jal");
    hide DirectCall;
    Front2(Identifier("jal"), Identifier(first), rest);
    Front(Identifier("jal"), [Identifier(first)] + rest);
    Front(Identifier(first), rest);
  }

  /** brasl in front of any stream: the token behind the next comma is the target when it is an identifier. */
  lemma BraslInstruction(operands: seq<Token>, t: Token, rest: seq<Token>, order: nat)
    requires Comma !in operands
    ensures Calls([Identifier("brasl")] + (operands + ([Comma, t] + rest)), order)
            == (if t.Identifier? then [Call(t.text, order + |operands| + 2)] else [])
               + Calls(rest, order + |operands| + 3)
  {
    CallWords("brasl");
    hide DirectCall;
    Front(Identifier("brasl"), operands + ([Comma, t] + rest));
    ToComma(operands, t, rest, order + 1);
  }

  lemma {:induction false} ToComma(operands: seq<Token>, t: Token, rest: seq<Token>, order: nat)
    requires Comma !in operands
    ensures AfterComma(operands + ([Comma, t] + rest), order)
            == (if t.Identifier? then [Call(t.text, order + |operands| + 1)] else [])
               + Calls(rest, order + |operands| + 2)
  {
    hide Calls;
    var tail := [Comma, t] + rest;
    if operands == [] {
      assert operands + tail == tail;
      Front2(Comma, t, rest);
      Front(Comma, [t] + rest);
      Front(t, rest);
    } else {
      ToComma(operands[1..], t, rest, order + 1);
      assert operands + tail == [operands[0]] + (operands[1..] + tail);
      Front(operands[0], operands[1..] + tail);
    }
  }

  /** .type NAME , MARKER in front of any stream makes NAME a function exactly for the five markers. */
  lemma TypeDirective(name: string, marker: Token, rest: seq<Token>, order: nat)
    requires Spelling(marker) !in PREFIXES && !marker.Period?
    ensures Directives([Period, Identifier("type"), Identifier(name), Comma, marker] + rest, order)
            == (if Spelling(marker) in MARKERS then [Typed(name, order + 4)] else []) + Directives(rest, order + 5)
  {
    MarkerWords(marker);
    var head := [Period, Identifier("type"), Identifier(name), Comma];
    assert head + ([marker] + rest) == [Period, Identifier("type"), Identifier(name), Comma, marker] + rest;
    TypeHead(name, [marker] + rest, order);
    Front(marker, rest);
    hide FunctionMarker, MarkerPrefix;
    assert [] + Directives(rest, order + 5) == Directives(rest, order + 5);
  }

  lemma TypeHead(name: string, rest: seq<Token>, order: nat)
    ensures Directives([Period, Identifier("type"), Identifier(name), Comma] + rest, order)
            == TypeMarker(name, rest, order + 4)
  {
    var tail := [Comma] + rest;
    assert [Period, Identifier("type"), Identifier(name), Comma] + rest
        == [Period, Identifier("type"), Identifier(name)] + tail;
    DirectiveHead("type", [Identifier(name)] + tail, order);
    assert [Period, Identifier("type")] + ([Identifier(name)] + tail)
        == [Period, Identifier("type"), Identifier(name)] + tail;
    AfterDotWords([Identifier(name)] + tail, order + 1);
    TypeNameComma(name, rest, order + 2);
  }

  lemma TypeNameComma(name: string, rest: seq<Token>, order: nat)
    ensures TypeName([Identifier(name)] + ([Comma] + rest), order) == TypeMarker(name, rest, order + 2)
  {
    hide TypeMarker;
    Front(Identifier(name), [Comma] + rest);
    Front(Comma, rest);
    assert TypeName([Identifier(name)] + ([Comma] + rest), order) == TypeComma(name, [Comma] + rest, order + 1);
  }

  lemma AfterDotWords(rest: seq<Token>, order: nat)
    ensures AfterDot([Identifier("type")] + rest, order) == TypeName(rest, order + 1)
    ensures AfterDot([Identifier("ent")] + rest, order) == EntName(rest, order + 1)
    ensures AfterDot([Identifier("end")] + rest, order) == EndName(rest, order + 1)
  {
    hide TypeName, EntName, EndName, Directives;
    assert "end"[2] != "ent"[2] && |"ent"| != |"type"|;
    Front(Identifier("type"), rest);
    Front(Identifier("ent"), rest);
    Front(Identifier("end"), rest);
  }

  lemma DirectiveHead(word: string, rest: seq<Token>, order: nat)
    ensures Directives([Period, Identifier(word)] + rest, order) == AfterDot([Identifier(word)] + rest, order + 1)
  {
    hide AfterDot;
    Front2(Period, Identifier(word), rest);
    Front(Period, [Identifier(word)] + rest);
  }

  /** .type NAME , PREFIX WORD does so exactly when the word is `function`. */
  lemma PrefixedDirective(name: string, prefix: Token, word: Token, rest: seq<Token>, order: nat)
    requires Spelling(prefix) in PREFIXES
    ensures Directives([Period, Identifier("type"), Identifier(name), Comma] + ([prefix, word] + rest), order)
            == (if Spelling(word) == "function" then [Typed(name, order + 5)] else []) + Directives(rest, order + 6)
  {
    MarkerWords(prefix);
    MarkerWords(word);
    hide FunctionMarker, MarkerPrefix;
    TypeHead(name, [prefix, word] + rest, order);
    Front2(prefix, word, rest);
    Front(prefix, [word] + rest);
    Front(word, rest);
    assert [] + Directives(rest, order + 6) == Directives(rest, order + 6);
  }

  /** .ent NAME makes NAME a function, and .end NAME ends it. */
  lemma EntAndEnd(name: string, rest: seq<Token>, order: nat)
    ensures Directives([Period, Identifier("ent"), Identifier(name)] + rest, order)
            == [Typed(name, order + 2)] + Directives(rest, order + 3)
    ensures Directives([Period, Identifier("end"), Identifier(name)] + rest, order)
            == [Ended(name, order + 2)] + Directives(rest, order + 3)
  {
    hide *;
    WordAndName("ent", name, rest, order);
    WordAndName("end", name, rest, order);
    AfterDotWords([Identifier(name)] + rest, order + 1);
    NameOperand(name, rest, order + 2);
  }

  lemma WordAndName(word: string, name: string, rest: seq<Token>, order: nat)
    ensures Directives([Period, Identifier(word), Identifier(name)] + rest, order)
            == AfterDot([Identifier(word)] + ([Identifier(name)] + rest), order + 1)
  {
    hide *;
    DirectiveHead(word, [Identifier(name)] + rest, order);
    assert [Period, Identifier(word)] + ([Identifier(name)] + rest)
        == [Period, Identifier(word), Identifier(name)] + rest;
  }

  lemma NameOperand(name: string, rest: seq<Token>, order: nat)
    ensures EntName([Identifier(name)] + rest, order) == [Typed(name, order)] + Directives(rest, order + 1)
    ensures EndName([Identifier(name)] + rest, order) == [Ended(name, order)] + Directives(rest, order + 1)
  {
    hide Directives;
    Front(Identifier(name), rest);
  }
}
