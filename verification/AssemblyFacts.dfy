/** Where calls, directives and labels stand in the stream, and how one more directive or label changes a function. */
module AssemblyFacts {
  import opened Wrappers
  import opened Assembly

  // ---- calls ----

  /** The calls stand at increasing places at or after `from`, each on an identifier token that is its target. */
  predicate Placed(calls: seq<Call>, tokens: seq<Token>, order: nat, from: nat) {
    && (forall i | 0 <= i < |calls| ::
          order <= from <= calls[i].order < order + |tokens|
          && tokens[calls[i].order - order] == Identifier(calls[i].target))
    && (forall i, j | 0 <= i < j < |calls| :: calls[i].order < calls[j].order)
  }

  lemma PlacedLater(calls: seq<Call>, tokens: seq<Token>, order: nat)
    requires tokens != [] && Placed(calls, tokens[1..], order + 1, order + 1)
    ensures Placed(calls, tokens, order, order + 1) && Placed(calls, tokens, order, order)
  {
    forall i | 0 <= i < |calls| ensures tokens[calls[i].order - order] == Identifier(calls[i].target) {
      assert tokens[1..][calls[i].order - (order + 1)] == tokens[calls[i].order - order];
    }
  }

  lemma PlacedMuchLater(calls: seq<Call>, tokens: seq<Token>, order: nat)
    requires |tokens| >= 2 && Placed(calls, tokens[1..][1..], order + 2, order + 2)
    ensures Placed(calls, tokens, order, order + 1) && Placed(calls, tokens, order, order)
  {
    PlacedLater(calls, tokens[1..], order + 1);
    PlacedLater(calls, tokens, order);
  }

  lemma PlacedFirst(calls: seq<Call>, tokens: seq<Token>, order: nat)
    requires tokens != [] && tokens[0].Identifier? && Placed(calls, tokens, order, order + 1)
    ensures Placed([Call(tokens[0].text, order)] + calls, tokens, order, order)
  {
  }

  lemma NonePlaced(tokens: seq<Token>, order: nat)
    ensures Placed([], tokens, order, order)
  {
  }

  lemma {:induction false} CallsPlaced(tokens: seq<Token>, order: nat)
    ensures Placed(Calls(tokens, order), tokens, order, order)
    decreases |tokens|, 1
  {
    hide Placed, Operand, JalOperands, AfterComma;
    NonePlaced(tokens, order);
    if tokens != [] {
      var rest := tokens[1..];
      CallsPlaced(rest, order + 1);
      OperandPlaced(rest, order + 1);
      JalPlaced(rest, order + 1);
      AfterCommaPlaced(rest, order + 1);
      PlacedLater(Calls(rest, order + 1), tokens, order);
      PlacedLater(Operand(rest, order + 1), tokens, order);
      PlacedLater(JalOperands(rest, order + 1), tokens, order);
      PlacedLater(AfterComma(rest, order + 1), tokens, order);
    }
  }

  lemma {:induction false} OperandPlaced(tokens: seq<Token>, order: nat)
    ensures Placed(Operand(tokens, order), tokens, order, order)
    decreases |tokens|, 0
  {
    hide Placed, Calls;
    NonePlaced(tokens, order);
    if tokens != [] {
      var rest := Calls(tokens[1..], order + 1);
      CallsPlaced(tokens[1..], order + 1);
      PlacedLater(rest, tokens, order);
      if tokens[0].Identifier? {
        PlacedFirst(rest, tokens, order);
      } else {
        assert [] + rest == rest;
      }
    }
  }

  lemma {:induction false} AfterCommaPlaced(tokens: seq<Token>, order: nat)
    ensures Placed(AfterComma(tokens, order), tokens, order, order)
    decreases |tokens|, 0
  {
    hide Placed, Operand;
    NonePlaced(tokens, order);
    if tokens != [] {
      OperandPlaced(tokens[1..], order + 1);
      AfterCommaPlaced(tokens[1..], order + 1);
      PlacedLater(Operand(tokens[1..], order + 1), tokens, order);
      PlacedLater(AfterComma(tokens[1..], order + 1), tokens, order);
    }
  }

  lemma {:induction false} JalPlaced(tokens: seq<Token>, order: nat)
    ensures Placed(JalOperands(tokens, order), tokens, order, order)
    decreases |tokens|, 0
  {
    hide Placed, Calls, Operand;
    NonePlaced(tokens, order);
    if tokens != [] {
      var rest := tokens[1..];
      CallsPlaced(rest, order + 1);
      PlacedLater(Calls(rest, order + 1), tokens, order);
      if tokens[0].Identifier? && rest != [] {
        OperandPlaced(rest[1..], order + 2);
        PlacedMuchLater(Operand(rest[1..], order + 2), tokens, order);
        CallsPlaced(rest[1..], order + 2);
        PlacedMuchLater(Calls(rest[1..], order + 2), tokens, order);
        PlacedFirst(Calls(rest[1..], order + 2), tokens, order);
      }
    }
  }

  // ---- directives ----

  predicate Between(directives: seq<Directive>, from: nat, to: nat) {
    forall d | d in directives :: from <= d.order < to
  }

  /** A directive stands at its last token, two tokens after its dot at the earliest. */
  lemma {:induction false} DirectivesBetween(tokens: seq<Token>, order: nat)
    ensures Between(Directives(tokens, order), order + 2, order + |tokens|)
    decreases |tokens|, 3
  {
    if tokens != [] {
      AfterDotBetween(tokens[1..], order + 1);
      DirectivesBetween(tokens[1..], order + 1);
    }
  }

  lemma {:induction false} AfterDotBetween(tokens: seq<Token>, order: nat)
    ensures Between(AfterDot(tokens, order), order + 1, order + |tokens|)
    decreases |tokens|, 4
  {
    if tokens != [] {
      TypeBetween(tokens[1..], order + 1);
      NameBetween(tokens[1..], order + 1);
      DirectivesBetween(tokens, order);
    }
  }

  lemma {:induction false} NameBetween(tokens: seq<Token>, order: nat)
    ensures Between(EntName(tokens, order), order, order + |tokens|)
    ensures Between(EndName(tokens, order), order, order + |tokens|)
    decreases |tokens|, 0
  {
    if tokens != [] {
      DirectivesBetween(tokens[1..], order + 1);
    }
  }

  lemma {:induction false} TypeBetween(tokens: seq<Token>, order: nat)
    ensures Between(TypeName(tokens, order), order, order + |tokens|)
    decreases |tokens|, 5
  {
    if tokens != [] {
      DirectivesBetween(tokens, order);
      CommaBetween(Spelling(tokens[0]), tokens[1..], order + 1);
    }
  }

  lemma {:induction false} CommaBetween(name: string, tokens: seq<Token>, order: nat)
    ensures Between(TypeComma(name, tokens, order), order, order + |tokens|)
    decreases |tokens|, 5
  {
    if tokens != [] {
      DirectivesBetween(tokens, order);
      MarkerBetween(name, tokens[1..], order + 1);
    }
  }

  lemma {:induction false} MarkerBetween(name: string, tokens: seq<Token>, order: nat)
    ensures Between(TypeMarker(name, tokens, order), order, order + |tokens|)
    ensures Between(PrefixedMarker(name, tokens, order), order, order + |tokens|)
    decreases |tokens|, 5
  {
    hide FunctionMarker, MarkerPrefix, Spelling;
    if tokens != [] {
      DirectivesBetween(tokens, order);
      DirectivesBetween(tokens[1..], order + 1);
      MarkerBetween(name, tokens[1..], order + 1);
    }
  }

  // ---- labels ----

  lemma {:induction false} LabelsPlaced(tokens: seq<Token>)
    ensures forall l | l in Labels(tokens) ::
              l.order + 1 < |tokens| && tokens[l.order] == Identifier(l.name) && l.name != ""
  {
    if |tokens| >= 2 {
      LabelsPlaced(tokens[..|tokens| - 1]);
    }
  }

  lemma {:induction false} FirstLabelIsOne(labels: seq<Label>, name: string)
    requires FirstLabel(labels, name).Some?
    ensures Label(name, FirstLabel(labels, name).value) in labels
  {
    if FirstLabel(labels[..|labels| - 1], name).Some? {
      FirstLabelIsOne(labels[..|labels| - 1], name);
    }
  }

  lemma {:induction false} FirstTypedIsOne(directives: seq<Directive>, name: string)
    requires FirstTyped(directives, name).Some?
    ensures Typed(name, FirstTyped(directives, name).value) in directives
  {
    if FirstTyped(directives[..|directives| - 1], name).Some? {
      FirstTypedIsOne(directives[..|directives| - 1], name);
    }
  }

  lemma {:induction false} LastEndIsOne(directives: seq<Directive>, name: string, after: nat)
    requires LastEnd(directives, name, after).Some?
    ensures var end := LastEnd(directives, name, after).value; end > after && Ended(name, end) in directives
  {
    var last := directives[|directives| - 1];
    if !(last.Ended? && last.name == name && last.order > after) {
      LastEndIsOne(directives[..|directives| - 1], name, after);
    }
  }

  // ---- one more directive or label ----

  lemma FirstLabelAppend(labels: seq<Label>, l: Label, name: string)
    ensures FirstLabel(labels + [l], name)
            == if FirstLabel(labels, name).None? && l.name == name then Some(l.order) else FirstLabel(labels, name)
  {
    assert (labels + [l])[..|labels|] == labels;
  }

  lemma DirectiveAppend(directives: seq<Directive>, d: Directive, name: string, after: nat)
    ensures FirstTyped(directives + [d], name)
            == if FirstTyped(directives, name).None? && d.Typed? && d.name == name then Some(d.order)
               else FirstTyped(directives, name)
    ensures LastEnd(directives + [d], name, after)
            == if d.Ended? && d.name == name && d.order > after then Some(d.order)
               else LastEnd(directives, name, after)
  {
    assert (directives + [d])[..|directives|] == directives;
  }

  lemma NoEndYet(directives: seq<Directive>, name: string, after: nat)
    requires forall d | d in directives :: d.order <= after
    ensures LastEnd(directives, name, after).None?
  {
    if LastEnd(directives, name, after).Some? {
      LastEndIsOne(directives, name, after);
    }
  }

  /** tryAddFunction, when the name is known but not emitted yet. */
  function NewFunction(name: string, at: nat, typed: nat): Function {
    Function(name, at, if typed > at then typed else 0)
  }

  lemma NewIsDescribed(labels: seq<Label>, directives: seq<Directive>, name: string)
    requires IsFunction(labels, directives, name)
    requires var known := KnownAt(FirstLabel(labels, name).value, FirstTyped(directives, name).value);
             forall d | d in directives :: d.order <= known
    ensures Described(labels, directives,
                      NewFunction(name, FirstLabel(labels, name).value, FirstTyped(directives, name).value))
  {
    NoEndYet(directives, name, KnownAt(FirstLabel(labels, name).value, FirstTyped(directives, name).value));
  }

  lemma LabelKeeps(labels: seq<Label>, directives: seq<Directive>, l: Label, f: Function)
    requires Described(labels, directives, f)
    ensures Described(labels + [l], directives, f)
  {
    FirstLabelAppend(labels, l, f.name);
  }

  lemma TypeKeeps(labels: seq<Label>, directives: seq<Directive>, d: Directive, f: Function)
    requires Described(labels, directives, f) && d.Typed?
    ensures Described(labels, directives + [d], f)
  {
    DirectiveAppend(directives, d, f.name,
                    KnownAt(FirstLabel(labels, f.name).value, FirstTyped(directives, f.name).value));
  }

  lemma EndKeeps(labels: seq<Label>, directives: seq<Directive>, d: Directive, f: Function)
    requires Described(labels, directives, f) && d.Ended?
    requires (forall l | l in labels :: l.order + 1 < d.order) && forall e | e in directives :: e.order < d.order
    ensures Described(labels, directives + [d], if f.name == d.name then f.(end := d.order) else f)
  {
    FirstLabelIsOne(labels, f.name);
    FirstTypedIsOne(directives, f.name);
    DirectiveAppend(directives, d, f.name,
                    KnownAt(FirstLabel(labels, f.name).value, FirstTyped(directives, f.name).value));
  }

  // ---- sorting ----

  lemma {:induction false} InsertedRows(fs: seq<Function>, f: Function)
    ensures multiset(InsertedByBegin(fs, f)) == multiset(fs) + multiset{f}
  {
    if fs != [] {
      InsertedRows(fs[1..], f);
      assert fs == [fs[0]] + fs[1..];
    }
  }

  lemma {:induction false} InsertedSorts(fs: seq<Function>, f: Function)
    requires ByBegin(fs) && forall g | g in fs :: g.begin != f.begin
    ensures ByBegin(InsertedByBegin(fs, f))
    ensures forall g | g in InsertedByBegin(fs, f) :: g in fs || g == f
  {
    if fs != [] {
      assert fs[0] in fs;
      InsertedSorts(fs[1..], f);
      var rest := InsertedByBegin(fs[1..], f);
      if fs[0].begin < f.begin {
        forall j | 0 <= j < |rest| ensures fs[0].begin < rest[j].begin {
          assert rest[j] in rest;
          if rest[j] in fs[1..] {
            var i :| 0 <= i < |fs[1..]| && fs[1..][i] == rest[j];
            assert fs[i + 1] == rest[j];
          }
        }
      }
    }
  }

  lemma {:induction false} SortSorts(fs: seq<Function>)
    requires forall i, j | 0 <= i < j < |fs| :: fs[i].begin != fs[j].begin
    ensures multiset(SortedByBegin(fs)) == multiset(fs) && ByBegin(SortedByBegin(fs))
  {
    if fs != [] {
      SortSorts(fs[1..]);
      assert fs == [fs[0]] + fs[1..];
      forall g | g in SortedByBegin(fs[1..]) ensures g.begin != fs[0].begin {
        assert g in multiset(fs[1..]);
        var i :| 0 <= i < |fs[1..]| && fs[1..][i] == g;
        assert fs[i + 1] == g;
      }
      InsertedSorts(SortedByBegin(fs[1..]), fs[0]);
      InsertedRows(SortedByBegin(fs[1..]), fs[0]);
    }
  }

  /** No two functions begin at the same token. */
  lemma BeginsDiffer(tokens: seq<Token>, fs: seq<Function>)
    requires Complete(Labels(tokens), Directives(tokens, 0), fs)
    ensures forall i, j | 0 <= i < j < |fs| :: fs[i].begin != fs[j].begin
  {
    hide Labels, Directives;
    LabelsPlaced(tokens);
    forall i | 0 <= i < |fs| ensures fs[i].begin < |tokens| && tokens[fs[i].begin] == Identifier(fs[i].name) {
      assert Described(Labels(tokens), Directives(tokens, 0), fs[i]);
      FirstLabelIsOne(Labels(tokens), fs[i].name);
    }
  }

  lemma SortedComplete(tokens: seq<Token>, fs: seq<Function>)
    requires Complete(Labels(tokens), Directives(tokens, 0), fs)
    ensures ByBegin(SortedByBegin(fs)) && Complete(Labels(tokens), Directives(tokens, 0), SortedByBegin(fs))
  {
    hide Labels, Directives, Described, FirstLabel, FirstTyped;
    BeginsDiffer(tokens, fs);
    SortSorts(fs);
    hide SortedByBegin, ByBegin, Complete;
    SameFunctionsComplete(Labels(tokens), Directives(tokens, 0), fs, SortedByBegin(fs));
  }

  lemma SameFunctionsComplete(labels: seq<Label>, directives: seq<Directive>, fs: seq<Function>, gs: seq<Function>)
    requires Complete(labels, directives, fs) && multiset(gs) == multiset(fs)
    ensures Complete(labels, directives, gs)
  {
    hide Described, IsFunction;
    forall i | 0 <= i < |gs| ensures gs[i] in fs {
      assert gs[i] in multiset(fs);
    }
    NamesStayDistinct(fs, gs);
    forall name | IsFunction(labels, directives, name) ensures exists i :: 0 <= i < |gs| && gs[i].name == name {
      var i :| 0 <= i < |fs| && fs[i].name == name;
      assert fs[i] in multiset(gs);
      var j :| 0 <= j < |gs| && gs[j] == fs[i];
    }
  }

  lemma NamesStayDistinct(fs: seq<Function>, sorted: seq<Function>)
    requires multiset(fs) == multiset(sorted) && forall i, j | 0 <= i < j < |fs| :: fs[i].name != fs[j].name
    ensures forall i, j | 0 <= i < j < |sorted| :: sorted[i].name != sorted[j].name
  {
    forall i, j | 0 <= i < j < |sorted| ensures sorted[i].name != sorted[j].name {
      assert sorted[i] in multiset(fs) && sorted[j] in multiset(fs);
      if sorted[i].name == sorted[j].name {
        assert sorted[i] == sorted[j];
        TwiceInSorted(sorted, i, j);
        OnceInDistinct(fs, sorted[i]);
      }
    }
  }

  lemma TwiceInSorted(fs: seq<Function>, i: nat, j: nat)
    requires i < j < |fs| && fs[i] == fs[j]
    ensures multiset(fs)[fs[i]] >= 2
  {
    assert fs == fs[..j] + [fs[j]] + fs[j + 1..];
    assert fs[..j][i] == fs[i];
    assert multiset(fs[..j])[fs[i]] >= 1;
  }

  lemma {:induction false} OnceInDistinct(fs: seq<Function>, f: Function)
    requires forall i, j | 0 <= i < j < |fs| :: fs[i].name != fs[j].name
    ensures multiset(fs)[f] <= 1
  {
    if fs != [] {
      OnceInDistinct(fs[1..], f);
      assert fs == [fs[0]] + fs[1..];
      forall g | g in fs[1..] ensures g.name != fs[0].name {
        var i :| 0 <= i < |fs[1..]| && fs[1..][i] == g;
        assert fs[i + 1] == g;
      }
    }
  }
}
