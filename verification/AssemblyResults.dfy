/** What the attribution of assembly calls promises. */
module AssemblyResults {
  import opened Wrappers
  import opened Assembly
  import opened AssemblyFacts

  /** The functions of a stream in the order in which they begin. */
  ghost predicate FunctionsOf(tokens: seq<Token>, fs: seq<Function>) {
    Complete(Labels(tokens), Directives(tokens, 0), fs) && ByBegin(fs)
  }

  /** Nothing gives f an end: no .end after it was known and no type after its label. */
  predicate Unmarked(tokens: seq<Token>, f: Function) {
    var at, typed := FirstLabel(Labels(tokens), f.name), FirstTyped(Directives(tokens, 0), f.name);
    at.Some? && typed.Some? && typed.value <= at.value
    && LastEnd(Directives(tokens, 0), f.name, KnownAt(at.value, typed.value)).None?
  }

  /** 0 stands for a missing end only: an end that is marked lies behind the label, and the comparison with the
      beginning finds exactly the functions without one, even for a label at token 0. */
  lemma UnsetIsNoEnd(tokens: seq<Token>, f: Function)
    requires Described(Labels(tokens), Directives(tokens, 0), f)
    ensures f.begin < |tokens| && tokens[f.begin] == Identifier(f.name)
    ensures Unmarked(tokens, f) ==> f.end == 0 < f.begin
    ensures !Unmarked(tokens, f) ==> f.begin < f.end < |tokens|
  {
    hide Labels, Directives;
    var directives := Directives(tokens, 0);
    LabelsPlaced(tokens);
    DirectivesBetween(tokens, 0);
    FirstLabelIsOne(Labels(tokens), f.name);
    FirstTypedIsOne(directives, f.name);
    var typed := FirstTyped(directives, f.name).value;
    assert Typed(f.name, typed) in directives;
    if LastEnd(directives, f.name, KnownAt(f.begin, typed)).Some? {
      LastEndIsOne(directives, f.name, KnownAt(f.begin, typed));
    }
  }

  /** After finish() every span is a span. */
  lemma SpansAreOrdered(tokens: seq<Token>, fs: seq<Function>, i: nat)
    requires FunctionsOf(tokens, fs) && i < |fs| && |tokens| <= LAST
    ensures Closed(fs)[i].name == fs[i].name && Closed(fs)[i].begin == fs[i].begin
    ensures Closed(fs)[i].begin < Closed(fs)[i].end
    ensures Closed(fs)[i].end == if !Unmarked(tokens, fs[i]) then fs[i].end
                                 else if i + 1 < |fs| then fs[i + 1].begin else LAST
  {
    assert Described(Labels(tokens), Directives(tokens, 0), fs[i]);
    UnsetIsNoEnd(tokens, fs[i]);
    hide Unmarked, Described;
  }

  /** The containing function is the one that begins last among those that span the token. */
  lemma {:induction false} ContainingIsNearest(fs: seq<Function>, order: nat)
    requires ByBegin(fs)
    ensures Containing(fs, order).None? <==> forall f | f in fs :: !Spans(f, order)
    ensures forall f :: Containing(fs, order) == Some(f) <==>
              f in fs && Spans(f, order) && forall g | g in fs && Spans(g, order) :: g.begin <= f.begin
  {
    if fs != [] {
      var n := |fs| - 1;
      var last, front := fs[n], fs[..n];
      ContainingIsNearest(front, order);
      assert fs == front + [last];
      assert forall f | f in front :: f.begin < last.begin;
    }
  }

  /** A function whose end was inferred takes no call at or past the beginning of the next one. */
  lemma InferredStopsAtNext(tokens: seq<Token>, fs: seq<Function>, i: nat, order: nat)
    requires FunctionsOf(tokens, fs) && i + 1 < |fs| && |tokens| <= LAST && Unmarked(tokens, fs[i])
    requires Containing(Closed(fs), order) == Some(Closed(fs)[i])
    ensures order < fs[i + 1].begin
  {
    hide Unmarked, Complete, Containing;
    SpansAreOrdered(tokens, fs, i);
    SpansAreOrdered(tokens, fs, i + 1);
    ContainingIsNearest(Closed(fs), order);
    var next := Closed(fs)[i + 1];
    assert next in Closed(fs);
    assert Closed(fs)[i].begin < next.begin;
  }

  /** Each call becomes one use in its containing function, or none. */
  lemma {:induction false} UsesAreCalls(calls: seq<Call>, fs: seq<Function>, u: Use)
    ensures u in Attributed(calls, fs) <==>
              && Call(u.target, u.order) in calls
              && Containing(fs, u.order).Some? && Containing(fs, u.order).value.name == u.context
  {
    if calls != [] {
      var n := |calls| - 1;
      UsesAreCalls(calls[..n], fs, u);
      assert calls == calls[..n] + [calls[n]];
    }
  }

  lemma DescriptionIsUnique(labels: seq<Label>, directives: seq<Directive>, f: Function, g: Function)
    requires Described(labels, directives, f) && Described(labels, directives, g) && f.name == g.name
    ensures f == g
  {
  }

  lemma SameMembers(tokens: seq<Token>, fs: seq<Function>, gs: seq<Function>, f: Function)
    requires FunctionsOf(tokens, fs) && FunctionsOf(tokens, gs) && f in fs
    ensures f in gs
  {
    hide Labels, Directives, Described, ByBegin;
    var i :| 0 <= i < |fs| && fs[i] == f;
    assert Described(Labels(tokens), Directives(tokens, 0), fs[i]);
    assert IsFunction(Labels(tokens), Directives(tokens, 0), f.name) by {
      DescribedIsFunction(Labels(tokens), Directives(tokens, 0), f);
    }
    var j :| 0 <= j < |gs| && gs[j].name == f.name;
    DescriptionIsUnique(Labels(tokens), Directives(tokens, 0), f, gs[j]);
  }

  lemma DescribedIsFunction(labels: seq<Label>, directives: seq<Directive>, f: Function)
    requires Described(labels, directives, f)
    ensures IsFunction(labels, directives, f.name)
  {
  }

  lemma FrontMembers(fs: seq<Function>, f: Function)
    requires ByBegin(fs) && fs != []
    ensures f in fs[..|fs| - 1] <==> f in fs && f != fs[|fs| - 1]
  {
    assert fs == fs[..|fs| - 1] + [fs[|fs| - 1]];
  }

  predicate Included(fs: seq<Function>, gs: seq<Function>) {
    forall f | f in fs :: f in gs
  }

  lemma {:induction false} SortedOnce(fs: seq<Function>, gs: seq<Function>)
    requires ByBegin(fs) && ByBegin(gs) && Included(fs, gs) && Included(gs, fs)
    ensures fs == gs
    decreases |fs|
  {
    assert fs != [] ==> fs[0] in fs;
    assert gs != [] ==> gs[0] in gs;
    if fs != [] {
      SameLast(fs, gs);
      var a, front, back := fs[|fs| - 1], fs[..|fs| - 1], gs[..|gs| - 1];
      hide ByBegin, Included;
      FrontSorted(fs);
      FrontSorted(gs);
      FrontIncluded(fs, gs);
      FrontIncluded(gs, fs);
      SortedOnce(front, back);
      assert fs == front + [a] && gs == back + [a];
    }
  }

  lemma FrontIncluded(fs: seq<Function>, gs: seq<Function>)
    requires ByBegin(fs) && ByBegin(gs) && fs != [] && gs != [] && fs[|fs| - 1] == gs[|gs| - 1]
    requires Included(fs, gs)
    ensures Included(fs[..|fs| - 1], gs[..|gs| - 1])
  {
    hide ByBegin;
    var front, back := fs[..|fs| - 1], gs[..|gs| - 1];
    forall f | f in front ensures f in back {
      FrontMembers(fs, f);
      FrontMembers(gs, f);
    }
  }

  lemma FrontSorted(fs: seq<Function>)
    requires ByBegin(fs) && fs != []
    ensures ByBegin(fs[..|fs| - 1])
  {
  }

  lemma SameLast(fs: seq<Function>, gs: seq<Function>)
    requires ByBegin(fs) && ByBegin(gs) && fs != [] && gs != []
    requires Included(fs, gs) && Included(gs, fs)
    ensures fs[|fs| - 1] == gs[|gs| - 1]
  {
    var a, b := fs[|fs| - 1], gs[|gs| - 1];
    assert a in fs && b in gs;
    LastIsLargest(fs);
    LastIsLargest(gs);
    var i :| 0 <= i < |gs| && gs[i] == a;
    assert i == |gs| - 1;
  }

  lemma LastIsLargest(fs: seq<Function>)
    requires ByBegin(fs) && fs != []
    ensures forall f | f in fs :: f.begin <= fs[|fs| - 1].begin
  {
  }

  /** A stream has one list of functions, whatever order its labels and types came in. */
  lemma FunctionsAreUnique(tokens: seq<Token>, fs: seq<Function>, gs: seq<Function>)
    requires FunctionsOf(tokens, fs) && FunctionsOf(tokens, gs)
    ensures fs == gs
  {
    hide Complete, Labels, Directives, ByBegin;
    forall f | f in fs ensures f in gs {
      SameMembers(tokens, fs, gs, f);
    }
    forall f | f in gs ensures f in fs {
      SameMembers(tokens, gs, fs, f);
    }
    assert ByBegin(fs) && ByBegin(gs);
    SortedOnce(fs, gs);
  }
}
