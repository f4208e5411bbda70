/** SemindexAsmIndexer: observe() for every token, then finish(). */
module AsmIndexer {
  import opened Wrappers
  import opened Assembly
  import opened AssemblyFacts

  datatype TypeState = Nothing | Dot | Directed | EntNamed | EndNamed | Named(name: string) | CommaSeen(name: string)
                     | Prefixed(name: string)

  datatype CallState = NoCall | Direct | JalFirst | JalAfterFirst | SkipToComma

  // ---- what the states stand for: how the rest of the stream will be read ----

  function CallsAhead(state: CallState, jal: Call, tokens: seq<Token>, order: nat): seq<Call> {
    match state
    case NoCall => Calls(tokens, order)
    case Direct => Operand(tokens, order)
    case JalFirst => JalOperands(tokens, order)
    case JalAfterFirst => JalEnd(jal, tokens, order)
    case SkipToComma => AfterComma(tokens, order)
  }

  function DirectivesAhead(state: TypeState, tokens: seq<Token>, order: nat): seq<Directive> {
    match state
    case Nothing => Directives(tokens, order)
    case Dot => AfterDot(tokens, order)
    case Directed => TypeName(tokens, order)
    case EntNamed => EntName(tokens, order)
    case EndNamed => EndName(tokens, order)
    case Named(name) => TypeComma(name, tokens, order)
    case CommaSeen(name) => TypeMarker(name, tokens, order)
    case Prefixed(name) => PrefixedMarker(name, tokens, order)
  }

  /** Whatever follows, the calls of the stream are the ones found and then the ones ahead. */
  ghost predicate CallsRead(seen: seq<Token>, calls: seq<Call>, state: CallState, jal: Call) {
    forall rest :: Calls(seen + rest, 0) == calls + CallsAhead(state, jal, rest, |seen|)
  }

  ghost predicate DirectivesRead(seen: seq<Token>, directives: seq<Directive>, state: TypeState) {
    forall rest :: Directives(seen + rest, 0) == directives + DirectivesAhead(state, rest, |seen|)
  }

  lemma CallsRest(seen: seq<Token>, calls: seq<Call>, state: CallState, jal: Call, rest: seq<Token>)
    requires CallsRead(seen, calls, state, jal)
    ensures Calls(seen + rest, 0) == calls + CallsAhead(state, jal, rest, |seen|)
  {
  }

  lemma DirectivesRest(seen: seq<Token>, directives: seq<Directive>, state: TypeState, rest: seq<Token>)
    requires DirectivesRead(seen, directives, state)
    ensures Directives(seen + rest, 0) == directives + DirectivesAhead(state, rest, |seen|)
  {
  }

  ghost predicate CallMove(state: CallState, jal: Call, t: Token, order: nat, next: CallState, nextJal: Call,
                           found: seq<Call>) {
    forall rest :: CallsAhead(state, jal, [t] + rest, order) == found + CallsAhead(next, nextJal, rest, order + 1)
  }

  lemma CallMoves(seen: seq<Token>, calls: seq<Call>, state: CallState, jal: Call, t: Token, next: CallState,
                  nextJal: Call, found: seq<Call>)
    requires CallsRead(seen, calls, state, jal) && CallMove(state, jal, t, |seen|, next, nextJal, found)
    ensures CallsRead(seen + [t], calls + found, next, nextJal)
  {
    hide CallsAhead, Calls;
    forall rest
      ensures Calls(seen + [t] + rest, 0) == calls + found + CallsAhead(next, nextJal, rest, |seen + [t]|)
    {
      assert seen + [t] + rest == seen + ([t] + rest);
      CallsRest(seen, calls, state, jal, [t] + rest);
    }
  }

  ghost predicate TypeMove(state: TypeState, t: Token, order: nat, next: TypeState, found: seq<Directive>) {
    forall rest :: DirectivesAhead(state, [t] + rest, order) == found + DirectivesAhead(next, rest, order + 1)
  }

  lemma TypeMoves(seen: seq<Token>, directives: seq<Directive>, state: TypeState, t: Token, next: TypeState,
                  found: seq<Directive>)
    requires DirectivesRead(seen, directives, state) && TypeMove(state, t, |seen|, next, found)
    ensures DirectivesRead(seen + [t], directives + found, next)
  {
    hide DirectivesAhead, Directives;
    forall rest
      ensures Directives(seen + [t] + rest, 0) == directives + found + DirectivesAhead(next, rest, |seen + [t]|)
    {
      assert seen + [t] + rest == seen + ([t] + rest);
      DirectivesRest(seen, directives, state, [t] + rest);
    }
  }

  /** observeCall: the next state, and the calls found. */
  function CallStep(state: CallState, jal: Call, t: Token, order: nat): (CallState, Call, seq<Call>) {
    match state
    case Direct => (NoCall, jal, if t.Identifier? then [Call(t.text, order)] else [])
    case SkipToComma => (if t.Comma? then Direct else SkipToComma, jal, [])
    case JalFirst => if t.Identifier? then (JalAfterFirst, Call(t.text, order), []) else (NoCall, jal, [])
    case JalAfterFirst => if t.Comma? then (Direct, jal, []) else (NoCall, jal, [jal])
    case NoCall =>
      (if !t.Identifier? then NoCall else if DirectCall(t.text) then Direct else if t.text == "jal" then JalFirst
       else if t.text == "brasl" then SkipToComma else NoCall, jal, [])
  }

  lemma CallStepMoves(state: CallState, jal: Call, t: Token, order: nat)
    ensures var (next, nextJal, found) := CallStep(state, jal, t, order);
            CallMove(state, jal, t, order, next, nextJal, found)
  {
    hide DirectCall;
    var (next, nextJal, found) := CallStep(state, jal, t, order);
    forall rest
      ensures CallsAhead(state, jal, [t] + rest, order) == found + CallsAhead(next, nextJal, rest, order + 1)
    {
      assert ([t] + rest)[1..] == rest;
    }
  }

  /** A token that breaks a directive off may start the next one. */
  function Reset(t: Token): TypeState {
    if t.Period? then Dot else Nothing
  }

  /** observeType, and the dot that starts it. */
  function TypeStep(state: TypeState, t: Token, order: nat): (TypeState, seq<Directive>) {
    match state
    case Nothing => (Reset(t), [])
    case Dot =>
      (if t == Identifier("type") then Directed else if t == Identifier("ent") then EntNamed
       else if t == Identifier("end") then EndNamed else Reset(t), [])
    case EntNamed => (Nothing, if t.Identifier? then [Typed(t.text, order)] else [])
    case EndNamed => (Nothing, if t.Identifier? then [Ended(t.text, order)] else [])
    case Directed => (if t.Identifier? then Named(t.text) else Reset(t), [])
    case Named(name) => (if t.Comma? then CommaSeen(name) else Reset(t), [])
    case CommaSeen(name) =>
      if FunctionMarker(t) then (Nothing, [Typed(name, order)])
      else if MarkerPrefix(t) then (Prefixed(name), [])
      else (Reset(t), [])
    case Prefixed(name) =>
      (Nothing, if FunctionMarker(t) && Spelling(t) == "function" then [Typed(name, order)] else [])
  }

  lemma TypeStepMoves(state: TypeState, t: Token, order: nat)
    ensures var (next, found) := TypeStep(state, t, order); TypeMove(state, t, order, next, found)
  {
    hide FunctionMarker, MarkerPrefix;
    var (next, found) := TypeStep(state, t, order);
    forall rest
      ensures DirectivesAhead(state, [t] + rest, order) == found + DirectivesAhead(next, rest, order + 1)
    {
      assert ([t] + rest)[1..] == rest;
      assert Directives([t] + rest, order) == DirectivesAhead(Reset(t), rest, order + 1);
    }
  }

  // ---- the tables ----

  type Marks = map<string, nat>

  ghost predicate MarksAre(functionTypes: Marks, labels: Marks, seenLabels: seq<Label>, directives: seq<Directive>) {
    && (forall name :: name in labels <==> FirstLabel(seenLabels, name).Some?)
    && (forall name | name in labels :: labels[name] == FirstLabel(seenLabels, name).value)
    && (forall name :: name in functionTypes <==> FirstTyped(directives, name).Some?)
    && (forall name | name in functionTypes :: functionTypes[name] == FirstTyped(directives, name).value)
  }

  ghost predicate EmittedAre(emitted: set<string>, symbols: seq<string>, functions: seq<Function>) {
    && |symbols| == |functions| && (forall i | 0 <= i < |functions| :: symbols[i] == functions[i].name)
    && (forall name :: name in emitted <==> name in symbols)
  }

  ghost predicate Early(seenLabels: seq<Label>, directives: seq<Directive>, order: nat) {
    (forall l | l in seenLabels :: l.order + 1 < order) && forall d | d in directives :: d.order < order
  }

  ghost predicate Tables(functionTypes: Marks, labels: Marks, emitted: set<string>, symbols: seq<string>,
                         functions: seq<Function>, seenLabels: seq<Label>, directives: seq<Directive>) {
    && MarksAre(functionTypes, labels, seenLabels, directives)
    && EmittedAre(emitted, symbols, functions)
    && Complete(seenLabels, directives, functions)
  }

  lemma EmittedIffFunction(emitted: set<string>, symbols: seq<string>, functions: seq<Function>,
                           seenLabels: seq<Label>, directives: seq<Directive>, name: string)
    requires EmittedAre(emitted, symbols, functions) && Complete(seenLabels, directives, functions)
    ensures name in emitted <==> IsFunction(seenLabels, directives, name)
  {
    if name in emitted {
      var i :| 0 <= i < |symbols| && symbols[i] == name;
      assert Described(seenLabels, directives, functions[i]);
    }
    if IsFunction(seenLabels, directives, name) {
      var i :| 0 <= i < |functions| && functions[i].name == name;
      assert symbols[i] == name;
    }
  }

  /** tryAddFunction(name) after the label or the type of the name was recorded. */
  function Tried(functions: seq<Function>, emitted: set<string>, functionTypes: Marks, labels: Marks, name: string)
    : seq<Function>
  {
    if name in functionTypes && name in labels && name !in emitted
    then functions + [NewFunction(name, labels[name], functionTypes[name])]
    else functions
  }

  lemma TriedCompletes(functions: seq<Function>, emitted: set<string>, symbols: seq<string>, functionTypes: Marks,
                       labels: Marks, name: string, oldLabels: seq<Label>, oldDirectives: seq<Directive>,
                       seenLabels: seq<Label>, directives: seq<Directive>)
    requires EmittedAre(emitted, symbols, functions) && Complete(oldLabels, oldDirectives, functions)
    requires MarksAre(functionTypes, labels, seenLabels, directives)
    requires forall i | 0 <= i < |functions| :: Described(seenLabels, directives, functions[i])
    requires forall other | other != name ::
               IsFunction(seenLabels, directives, other) <==> IsFunction(oldLabels, oldDirectives, other)
    requires name !in emitted && IsFunction(seenLabels, directives, name) ==>
               Described(seenLabels, directives, NewFunction(name, labels[name], functionTypes[name]))
    ensures Complete(seenLabels, directives, Tried(functions, emitted, functionTypes, labels, name))
  {
    hide Described, FirstLabel, FirstTyped;
    var fs := Tried(functions, emitted, functionTypes, labels, name);
    assert name in functionTypes && name in labels <==> IsFunction(seenLabels, directives, name);
    forall other | IsFunction(seenLabels, directives, other) ensures exists i :: 0 <= i < |fs| && fs[i].name == other {
      if other == name {
        if name in emitted {
          var i :| 0 <= i < |symbols| && symbols[i] == name;
          assert fs[i].name == name;
        } else {
          assert fs[|functions|].name == name;
        }
      } else {
        var i :| 0 <= i < |functions| && functions[i].name == other;
        assert fs[i].name == other;
      }
    }
    forall i, j | 0 <= i < j < |fs| ensures fs[i].name != fs[j].name {
      if j == |functions| {
        assert symbols[i] in symbols;
      }
    }
  }

  /** unordered_map::emplace. */
  function Emplaced(marks: Marks, name: string, order: nat): Marks {
    if name in marks then marks else marks[name := order]
  }

  function Added(functions: seq<Function>, tried: seq<Function>, symbols: seq<string>, name: string): seq<string> {
    if |tried| > |functions| then symbols + [name] else symbols
  }

  lemma TriedEmits(functions: seq<Function>, emitted: set<string>, symbols: seq<string>, functionTypes: Marks,
                   labels: Marks, name: string)
    requires EmittedAre(emitted, symbols, functions)
    ensures var tried := Tried(functions, emitted, functionTypes, labels, name);
            EmittedAre(if |tried| > |functions| then emitted + {name} else emitted,
                       Added(functions, tried, symbols, name), tried)
  {
  }

  lemma TypedCompletes(functionTypes: Marks, labels: Marks, emitted: set<string>, symbols: seq<string>,
                       functions: seq<Function>, seenLabels: seq<Label>, directives: seq<Directive>, name: string,
                       order: nat)
    requires Tables(functionTypes, labels, emitted, symbols, functions, seenLabels, directives)
    requires Early(seenLabels, directives, order)
    ensures var types := Emplaced(functionTypes, name, order);
            && MarksAre(types, labels, seenLabels, directives + [Typed(name, order)])
            && Complete(seenLabels, directives + [Typed(name, order)], Tried(functions, emitted, types, labels, name))
  {
    var types, more := Emplaced(functionTypes, name, order), directives + [Typed(name, order)];
    forall other ensures FirstTyped(more, other) == if FirstTyped(directives, other).None? && other == name
                                                    then Some(order) else FirstTyped(directives, other) {
      DirectiveAppend(directives, Typed(name, order), other, 0);
    }
    forall i | 0 <= i < |functions| ensures Described(seenLabels, more, functions[i]) {
      TypeKeeps(seenLabels, directives, Typed(name, order), functions[i]);
    }
    EmittedIffFunction(emitted, symbols, functions, seenLabels, directives, name);
    if name !in emitted && IsFunction(seenLabels, more, name) {
      NewIsDescribed(seenLabels, more, name);
    }
    TriedCompletes(functions, emitted, symbols, types, labels, name, seenLabels, directives, seenLabels, more);
  }

  lemma LabelCompletes(functionTypes: Marks, labels: Marks, emitted: set<string>, symbols: seq<string>,
                       functions: seq<Function>, seenLabels: seq<Label>, directives: seq<Directive>, name: string,
                       order: nat)
    requires Tables(functionTypes, labels, emitted, symbols, functions, seenLabels, directives)
    requires forall d | d in directives :: d.order <= order + 1
    ensures var marks := Emplaced(labels, name, order);
            && MarksAre(functionTypes, marks, seenLabels + [Label(name, order)], directives)
            && Complete(seenLabels + [Label(name, order)], directives,
                        Tried(functions, emitted, functionTypes, marks, name))
  {
    var marks, more := Emplaced(labels, name, order), seenLabels + [Label(name, order)];
    forall other ensures FirstLabel(more, other) == if FirstLabel(seenLabels, other).None? && other == name
                                                    then Some(order) else FirstLabel(seenLabels, other) {
      FirstLabelAppend(seenLabels, Label(name, order), other);
    }
    forall i | 0 <= i < |functions| ensures Described(more, directives, functions[i]) {
      LabelKeeps(seenLabels, directives, Label(name, order), functions[i]);
    }
    EmittedIffFunction(emitted, symbols, functions, seenLabels, directives, name);
    if name !in emitted && IsFunction(more, directives, name) {
      NewIsDescribed(more, directives, name);
    }
    TriedCompletes(functions, emitted, symbols, functionTypes, marks, name, seenLabels, directives, more, directives);
  }

  function EndedFunction(f: Function, name: string, order: nat): Function {
    if f.name == name then f.(end := order) else f
  }

  lemma EndedCompletes(functionTypes: Marks, labels: Marks, emitted: set<string>, symbols: seq<string>,
                       functions: seq<Function>, ended: seq<Function>, seenLabels: seq<Label>,
                       directives: seq<Directive>, name: string, order: nat)
    requires Tables(functionTypes, labels, emitted, symbols, functions, seenLabels, directives)
    requires Early(seenLabels, directives, order) && |ended| == |functions|
    requires forall i | 0 <= i < |functions| :: ended[i] == EndedFunction(functions[i], name, order)
    ensures Tables(functionTypes, labels, emitted, symbols, ended, seenLabels, directives + [Ended(name, order)])
  {
    var more := directives + [Ended(name, order)];
    forall other ensures FirstTyped(more, other) == FirstTyped(directives, other) {
      DirectiveAppend(directives, Ended(name, order), other, 0);
    }
    forall i | 0 <= i < |ended| ensures Described(seenLabels, more, ended[i]) {
      EndKeeps(seenLabels, directives, Ended(name, order), functions[i]);
    }
    hide Described, FirstTyped, FirstLabel;
    forall other | IsFunction(seenLabels, more, other) ensures exists i :: 0 <= i < |ended| && ended[i].name == other {
      assert IsFunction(seenLabels, directives, other);
      var i :| 0 <= i < |functions| && functions[i].name == other;
      assert ended[i].name == other;
    }
  }

  // ---- the indexer ----

  /** The identifier that the last token was, if it was one. */
  function Previous(seen: seq<Token>): string {
    if seen != [] && seen[|seen| - 1].Identifier? then seen[|seen| - 1].text else ""
  }

  lemma NothingRead(jal: Call)
    ensures CallsRead([], [], NoCall, jal) && DirectivesRead([], [], Nothing)
    ensures Tables(map[], map[], {}, [], [], Labels([]), [])
  {
    forall rest: seq<Token>
      ensures Calls([] + rest, 0) == [] + CallsAhead(NoCall, jal, rest, 0)
      ensures Directives([] + rest, 0) == [] + DirectivesAhead(Nothing, rest, 0)
    {
      assert [] + rest == rest;
    }
  }

  class AsmIndexer {
    var typeState: TypeState
    var callState: CallState
    var jal: Call
    var previousIdentifier: string
    var previousOrder: nat
    var tokenOrder: nat
    var functionTypes: Marks
    var labels: Marks
    var emitted: set<string>
    var functions: seq<Function>
    var calls: seq<Call>
    var symbols: seq<string>   // the names given to addSymbolInScope
    var uses: seq<Use>         // the calls given to addUseInScope
    ghost var seen: seq<Token>
    ghost var directives: seq<Directive>

    ghost predicate Valid()
      reads this
    {
      && tokenOrder == |seen|
      && CallsRead(seen, calls, callState, jal)
      && DirectivesRead(seen, directives, typeState)
      && Tables(functionTypes, labels, emitted, symbols, functions, Labels(seen), directives)
      && previousIdentifier == Previous(seen)
      && (previousIdentifier != "" ==> previousOrder == |seen| - 1)
    }

    constructor ()
      ensures Valid() && seen == [] && uses == []
    {
      typeState, callState, jal := Nothing, NoCall, Call("", 0);
      previousIdentifier, previousOrder, tokenOrder := "", 0, 0;
      functionTypes, labels, emitted, functions := map[], map[], {}, [];
      calls, symbols, uses, seen, directives := [], [], [], [], [];
      NothingRead(Call("", 0));
    }

    method ObserveCall(token: Token)
      modifies this`callState, this`jal, this`calls
      ensures var (next, nextJal, found) := CallStep(old(callState), old(jal), token, tokenOrder);
              callState == next && jal == nextJal && calls == old(calls) + found
    {
      if callState == Direct {
        if token.Identifier? {
          calls := calls + [Call(token.text, tokenOrder)];
        }
        callState := NoCall;
        return;
      }
      if callState == SkipToComma {
        if token.Comma? {
          callState := Direct;
        }
        return;
      }
      if callState == JalFirst {
        if token.Identifier? {
          jal := Call(token.text, tokenOrder);
          callState := JalAfterFirst;
        } else {
          callState := NoCall;
        }
        return;
      }
      if callState == JalAfterFirst {
        if token.Comma? {
          callState := Direct;
        } else {
          calls := calls + [jal];
          callState := NoCall;
        }
        return;
      }
      if !token.Identifier? {
        return;
      }
      if DirectCall(token.text) {
        callState := Direct;
      } else if token.text == "jal" {
        callState := JalFirst;
      } else if token.text == "brasl" {
        callState := SkipToComma;
      }
    }

    method TryAddFunction(name: string)
      modifies this`emitted, this`functions, this`symbols
      ensures functions == Tried(old(functions), old(emitted), functionTypes, labels, name)
      ensures emitted == if |functions| > |old(functions)| then old(emitted) + {name} else old(emitted)
      ensures symbols == Added(old(functions), functions, old(symbols), name)
    {
      if name !in functionTypes || name !in labels || name in emitted {
        return;
      }
      emitted := emitted + {name};
      symbols := symbols + [name];
      functions := functions
        + [Function(name, labels[name], if functionTypes[name] > labels[name] then functionTypes[name] else 0)];
    }

    method AddFunctionType(name: string, order: nat)
      requires Tables(functionTypes, labels, emitted, symbols, functions, Labels(seen), directives)
      requires Early(Labels(seen), directives, order)
      modifies this`functionTypes, this`emitted, this`functions, this`symbols, this`directives
      ensures directives == old(directives) + [Typed(name, order)]
      ensures Tables(functionTypes, labels, emitted, symbols, functions, Labels(seen), directives)
    {
      hide MarksAre, EmittedAre, Complete, Early, Labels;
      assert EmittedAre(emitted, symbols, functions);
      TypedCompletes(functionTypes, labels, emitted, symbols, functions, Labels(seen), directives, name, order);
      if name !in functionTypes {
        functionTypes := functionTypes[name := order];
      }
      directives := directives + [Typed(name, order)];
      TriedEmits(functions, emitted, symbols, functionTypes, labels, name);
      TryAddFunction(name);
    }

    method AddLabel(name: string, order: nat, ghost more: seq<Label>)
      requires Tables(functionTypes, labels, emitted, symbols, functions, Labels(seen), directives)
      requires more == Labels(seen) + [Label(name, order)] && forall d | d in directives :: d.order <= order + 1
      modifies this`labels, this`emitted, this`functions, this`symbols
      ensures Tables(functionTypes, labels, emitted, symbols, functions, more, directives)
    {
      hide MarksAre, EmittedAre, Complete, Labels;
      LabelCompletes(functionTypes, labels, emitted, symbols, functions, Labels(seen), directives, name, order);
      if name !in labels {
        labels := labels[name := order];
      }
      TriedEmits(functions, emitted, symbols, functionTypes, labels, name);
      TryAddFunction(name);
    }

    method EndFunction(name: string, order: nat)
      requires Tables(functionTypes, labels, emitted, symbols, functions, Labels(seen), directives)
      requires Early(Labels(seen), directives, order)
      modifies this`functions, this`directives
      ensures directives == old(directives) + [Ended(name, order)]
      ensures Tables(functionTypes, labels, emitted, symbols, functions, Labels(seen), directives)
    {
      for i := 0 to |functions|
        invariant |functions| == |old(functions)| && directives == old(directives)
        invariant forall j | 0 <= j < |functions| ::
                    functions[j] == if j < i then EndedFunction(old(functions)[j], name, order) else old(functions)[j]
      {
        if functions[i].name == name {
          functions := functions[i := functions[i].(end := order)];
        }
      }
      EndedCompletes(functionTypes, labels, emitted, symbols, old(functions), functions, Labels(seen), directives,
                     name, order);
      directives := directives + [Ended(name, order)];
    }

    method ObserveType(token: Token)
      requires Tables(functionTypes, labels, emitted, symbols, functions, Labels(seen), directives)
      requires Early(Labels(seen), directives, tokenOrder) && typeState != Nothing
      modifies this`typeState, this`functionTypes, this`emitted, this`functions, this`symbols, this`directives
      ensures typeState == TypeStep(old(typeState), token, tokenOrder).0
      ensures directives == old(directives) + TypeStep(old(typeState), token, tokenOrder).1
      ensures Tables(functionTypes, labels, emitted, symbols, functions, Labels(seen), directives)
    {
      hide Tables, Early, FunctionMarker, MarkerPrefix;
      match typeState {
        case Dot =>
          typeState := if token == Identifier("type") then Directed else if token == Identifier("ent") then EntNamed
                       else if token == Identifier("end") then EndNamed else Reset(token);
        case EntNamed =>
          if token.Identifier? {
            AddFunctionType(token.text, tokenOrder);
          }
          typeState := Nothing;
        case EndNamed =>
          if token.Identifier? {
            EndFunction(token.text, tokenOrder);
          }
          typeState := Nothing;
        case Directed =>
          typeState := if token.Identifier? then Named(token.text) else Reset(token);
        case Named(name) =>
          typeState := if token.Comma? then CommaSeen(name) else Reset(token);
        case CommaSeen(name) =>
          if FunctionMarker(token) {
            AddFunctionType(name, tokenOrder);
            typeState := Nothing;
          } else if MarkerPrefix(token) {
            typeState := Prefixed(name);
          } else {
            typeState := Reset(token);
          }
        case Prefixed(name) =>
          if FunctionMarker(token) && Spelling(token) == "function" {
            AddFunctionType(name, tokenOrder);
          }
          typeState := Nothing;
      }
    }

    method Observe(token: Token)
      requires Valid()
      modifies this
      ensures Valid() && seen == old(seen) + [token] && uses == old(uses)
    {
      hide Tables, Labels, Complete, CallsRead, DirectivesRead, CallStep, TypeStep, Reset, Previous;
      ReadOne(seen, calls, callState, jal, directives, typeState, token);
      LabelStep(seen, token);
      ObserveCall(token);
      ObserveDirective(token);
      ObserveLabel(token);
      if token.Identifier? {
        previousIdentifier, previousOrder := token.text, tokenOrder;
      } else {
        previousIdentifier := "";
      }
      tokenOrder := tokenOrder + 1;
      seen := seen + [token];
    }

    method ObserveDirective(token: Token)
      requires Tables(functionTypes, labels, emitted, symbols, functions, Labels(seen), directives)
      requires Early(Labels(seen), directives, tokenOrder)
      modifies this`typeState, this`functionTypes, this`emitted, this`functions, this`symbols, this`directives
      ensures typeState == TypeStep(old(typeState), token, tokenOrder).0
      ensures directives == old(directives) + TypeStep(old(typeState), token, tokenOrder).1
      ensures Tables(functionTypes, labels, emitted, symbols, functions, Labels(seen), directives)
    {
      hide Tables, Labels, Early;
      if typeState != Nothing {
        ObserveType(token);
      } else if token.Period? {
        typeState := Dot;
      }
    }

    method ObserveLabel(token: Token)
      requires Tables(functionTypes, labels, emitted, symbols, functions, Labels(seen), directives)
      requires forall d | d in directives :: d.order <= tokenOrder
      requires previousIdentifier != "" ==> previousOrder + 1 == tokenOrder
      modifies this`labels, this`emitted, this`functions, this`symbols
      ensures Tables(functionTypes, labels, emitted, symbols, functions,
                     if token.Colon? && previousIdentifier != ""
                     then Labels(seen) + [Label(previousIdentifier, previousOrder)] else Labels(seen), directives)
    {
      hide Tables, Labels;
      if token.Colon? && previousIdentifier != "" {
        AddLabel(previousIdentifier, previousOrder, Labels(seen) + [Label(previousIdentifier, previousOrder)]);
      }
    }

    method ContainingFunction(order: nat) returns (result: Option<Function>)
      requires ByBegin(functions)
      ensures result == Containing(functions, order)
    {
      result := None;
      for i := 0 to |functions|
        invariant result == Containing(functions[..i], order)
      {
        if functions[i].begin > order {
          LaterDoNotContain(functions, i, order);
          return;
        }
        assert functions[..i + 1][..i] == functions[..i];
        if order <= functions[i].end {
          result := Some(functions[i]);
        }
      }
      assert functions[..|functions|] == functions;
    }

    method InferEnds()
      modifies this`functions
      ensures functions == Closed(SortedByBegin(old(functions)))
    {
      ghost var sorted := SortedByBegin(functions);
      functions := SortedByBegin(functions);
      for i := 0 to |functions|
        invariant |functions| == |sorted|
        invariant forall j | 0 <= j < |sorted| :: functions[j] == if j < i then WithEnd(sorted, j) else sorted[j]
      {
        if functions[i].end < functions[i].begin {
          functions := functions[i := functions[i].(end := if i + 1 < |functions| then functions[i + 1].begin
                                                           else LAST)];
        }
      }
      assert functions == Closed(sorted);
    }

    method AttributeCalls()
      requires ByBegin(functions)
      modifies this`uses
      ensures uses == old(uses) + Attributed(calls, functions)
    {
      for i := 0 to |calls|
        invariant uses == old(uses) + Attributed(calls[..i], functions)
      {
        var owner := ContainingFunction(calls[i].order);
        assert calls[..i + 1][..i] == calls[..i];
        if owner.Some? {
          uses := uses + [Use(calls[i].target, calls[i].order, owner.value.name)];
        }
      }
      assert calls[..|calls|] == calls;
    }

    method Finish()
      requires Valid()
      modifies this`functions, this`uses
      ensures Complete(Labels(seen), Directives(seen, 0), SortedByBegin(old(functions)))
      ensures ByBegin(SortedByBegin(old(functions))) && functions == Closed(SortedByBegin(old(functions)))
      ensures uses == old(uses) + Attributed(Calls(seen, 0), functions)
    {
      hide CallsRead, DirectivesRead, Complete, Labels, ByBegin;
      ReadSoFar(seen, calls, callState, jal, directives, typeState);
      SortedComplete(seen, functions);
      ClosedByBegin(SortedByBegin(functions));
      InferEnds();
      AttributeCalls();
    }
  }

  /** A whole token stream. */
  method IndexTokens(tokens: seq<Token>) returns (symbols: seq<string>, uses: seq<Use>, ghost fs: seq<Function>)
    ensures Complete(Labels(tokens), Directives(tokens, 0), fs) && ByBegin(fs)
    ensures uses == Attributed(Calls(tokens, 0), Closed(fs))
    ensures forall i, j | 0 <= i < j < |symbols| :: symbols[i] != symbols[j]
    ensures forall name :: name in symbols <==> IsFunction(Labels(tokens), Directives(tokens, 0), name)
  {
    hide Complete, Tables;
    var indexer := new AsmIndexer();
    for i := 0 to |tokens|
      invariant fresh(indexer) && indexer.Valid() && indexer.seen == tokens[..i] && indexer.uses == []
    {
      indexer.Observe(tokens[i]);
    }
    assert tokens[..|tokens|] == tokens;
    ReadSoFar(indexer.seen, indexer.calls, indexer.callState, indexer.jal, indexer.directives, indexer.typeState);
    SymbolsAreFunctions(indexer.functionTypes, indexer.labels, indexer.emitted, indexer.symbols, indexer.functions,
                        Labels(tokens), Directives(tokens, 0));
    fs := SortedByBegin(indexer.functions);
    indexer.Finish();
    symbols, uses := indexer.symbols, indexer.uses;
  }

  lemma SymbolsAreFunctions(functionTypes: Marks, labels: Marks, emitted: set<string>, symbols: seq<string>,
                            functions: seq<Function>, seenLabels: seq<Label>, directives: seq<Directive>)
    requires Tables(functionTypes, labels, emitted, symbols, functions, seenLabels, directives)
    ensures forall i, j | 0 <= i < j < |symbols| :: symbols[i] != symbols[j]
    ensures forall name :: name in symbols <==> IsFunction(seenLabels, directives, name)
  {
    forall name ensures name in symbols <==> IsFunction(seenLabels, directives, name) {
      EmittedIffFunction(emitted, symbols, functions, seenLabels, directives, name);
    }
  }

  lemma {:induction false} LaterDoNotContain(fs: seq<Function>, i: nat, order: nat)
    requires ByBegin(fs) && i < |fs| && fs[i].begin > order
    ensures Containing(fs, order) == Containing(fs[..i], order)
    decreases |fs|
  {
    var front := fs[..|fs| - 1];
    if i == |fs| - 1 {
      assert front == fs[..i];
    } else {
      LaterDoNotContain(front, i, order);
      assert front[..i] == fs[..i];
      assert fs[i].begin < fs[|fs| - 1].begin;
    }
  }

  lemma ReadOne(seen: seq<Token>, calls: seq<Call>, callState: CallState, jal: Call, directives: seq<Directive>,
                typeState: TypeState, t: Token)
    requires CallsRead(seen, calls, callState, jal) && DirectivesRead(seen, directives, typeState)
    ensures Early(Labels(seen), directives, |seen|)
    ensures var (next, nextJal, found) := CallStep(callState, jal, t, |seen|);
            CallsRead(seen + [t], calls + found, next, nextJal)
    ensures var (next, found) := TypeStep(typeState, t, |seen|);
            && DirectivesRead(seen + [t], directives + found, next)
            && forall d | d in directives + found :: d.order <= |seen|
  {
    hide CallsRead, DirectivesRead, Labels, CallStep;
    var n := |seen|;
    var (next, nextJal, found) := CallStep(callState, jal, t, n);
    ReadSoFar(seen, calls, callState, jal, directives, typeState);
    CallStepMoves(callState, jal, t, n);
    CallMoves(seen, calls, callState, jal, t, next, nextJal, found);
    TypeStepMoves(typeState, t, n);
    TypeMoves(seen, directives, typeState, t, TypeStep(typeState, t, n).0, TypeStep(typeState, t, n).1);
  }

  /** What has been read is what the grammar finds in the tokens so far, so all of it lies before the next token. */
  lemma ReadSoFar(seen: seq<Token>, calls: seq<Call>, callState: CallState, jal: Call, directives: seq<Directive>,
                  typeState: TypeState)
    requires CallsRead(seen, calls, callState, jal) && DirectivesRead(seen, directives, typeState)
    ensures calls == Calls(seen, 0) && directives == Directives(seen, 0)
    ensures Early(Labels(seen), directives, |seen|)
  {
    hide Calls, Directives, CallsAhead, DirectivesAhead, CallsRead, DirectivesRead, Labels;
    assert seen + [] == seen;
    CallsRest(seen, calls, callState, jal, []);
    DirectivesRest(seen, directives, typeState, []);
    NothingAhead(callState, jal, typeState, |seen|);
    assert calls + [] == calls && directives + [] == directives;
    DirectivesBetween(seen, 0);
    LabelsPlaced(seen);
  }

  lemma NothingAhead(callState: CallState, jal: Call, typeState: TypeState, order: nat)
    ensures CallsAhead(callState, jal, [], order) == [] && DirectivesAhead(typeState, [], order) == []
  {
  }

  lemma LabelStep(seen: seq<Token>, t: Token)
    ensures Labels(seen + [t])
            == if t.Colon? && Previous(seen) != "" then Labels(seen) + [Label(Previous(seen), |seen| - 1)]
               else Labels(seen)
    ensures Previous(seen + [t]) == if t.Identifier? then t.text else ""
  {
    assert (seen + [t])[..|seen|] == seen;
  }

  lemma ClosedByBegin(fs: seq<Function>)
    requires ByBegin(fs)
    ensures ByBegin(Closed(fs))
  {
  }
}
