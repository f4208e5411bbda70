/** What the assembly indexer reads from a token stream: a grammar for calls and for directives, the labels, and the
    functions that they delimit (lib/semindex_parser/index_asm.cpp). */
module Assembly {
  import opened Wrappers

  datatype Token = Identifier(text: string) | Period | Comma | Colon | Other(text: string)

  /** The largest size_t: the end of a function that nothing follows. */
  const LAST: nat := 0xffff_ffff_ffff_ffff

  function Spelling(t: Token): string {
    match t
    case Identifier(text) => text
    case Period => "."
    case Comma => ","
    case Colon => ":"
    case Other(text) => text
  }

  predicate FunctionMarker(t: Token) {
    var text := Spelling(t);
    text == "function" || text == "@function" || text == "%function" || text == "#function" || text == "STT_FUNC"
  }

  predicate MarkerPrefix(t: Token) {
    var text := Spelling(t);
    text == "@" || text == "%" || text == "#"
  }

  predicate DirectCall(text: string) {
    text == "call" || text == "callq" || text == "bl" || text == "jbsr" || text == "bsr"
  }

  // ---- calls ----

  datatype Call = Call(target: string, order: nat)

  /** The calls in the tokens, of which the first one has the given order. */
  function Calls(tokens: seq<Token>, order: nat): seq<Call>
    decreases |tokens|, 1
  {
    if tokens == [] then []
    else
      var t, rest := tokens[0], tokens[1..];
      if !t.Identifier? then Calls(rest, order + 1)
      else if DirectCall(t.text) then Operand(rest, order + 1)
      else if t.text == "jal" then JalOperands(rest, order + 1)
      else if t.text == "brasl" then AfterComma(rest, order + 1)
      else Calls(rest, order + 1)
  }

  /** The target, when it is an identifier. */
  function Operand(tokens: seq<Token>, order: nat): seq<Call>
    decreases |tokens|, 0
  {
    if tokens == [] then []
    else (if tokens[0].Identifier? then [Call(tokens[0].text, order)] else []) + Calls(tokens[1..], order + 1)
  }

  /** jal TARGET or jal LINK, TARGET; a jal that the stream ends before telling which is no call. */
  function JalOperands(tokens: seq<Token>, order: nat): seq<Call>
    decreases |tokens|, 0
  {
    if tokens == [] then []
    else if !tokens[0].Identifier? then Calls(tokens[1..], order + 1)
    else JalEnd(Call(tokens[0].text, order), tokens[1..], order + 1)
  }

  function JalEnd(first: Call, tokens: seq<Token>, order: nat): seq<Call>
    decreases |tokens|, 0
  {
    if tokens == [] then []
    else if tokens[0].Comma? then Operand(tokens[1..], order + 1)
    else [first] + Calls(tokens[1..], order + 1)
  }

  /** brasl ... , TARGET. */
  function AfterComma(tokens: seq<Token>, order: nat): seq<Call>
    decreases |tokens|, 0
  {
    if tokens == [] then []
    else if tokens[0].Comma? then Operand(tokens[1..], order + 1)
    else AfterComma(tokens[1..], order + 1)
  }

  // ---- directives ----

  datatype Directive = Typed(name: string, order: nat) | Ended(name: string, order: nat)

  /** The directives in the tokens. A token that breaks one off is read again as the start of the next. */
  function Directives(tokens: seq<Token>, order: nat): seq<Directive>
    decreases |tokens|, 1
  {
    if tokens == [] then []
    else if tokens[0].Period? then AfterDot(tokens[1..], order + 1)
    else Directives(tokens[1..], order + 1)
  }

  function AfterDot(tokens: seq<Token>, order: nat): seq<Directive>
    decreases |tokens|, 2
  {
    if tokens == [] then []
    else if tokens[0] == Identifier("type") then TypeName(tokens[1..], order + 1)
    else if tokens[0] == Identifier("ent") then EntName(tokens[1..], order + 1)
    else if tokens[0] == Identifier("end") then EndName(tokens[1..], order + 1)
    else Directives(tokens, order)
  }

  function EntName(tokens: seq<Token>, order: nat): seq<Directive>
    decreases |tokens|, 0
  {
    if tokens == [] then []
    else (if tokens[0].Identifier? then [Typed(tokens[0].text, order)] else []) + Directives(tokens[1..], order + 1)
  }

  function EndName(tokens: seq<Token>, order: nat): seq<Directive>
    decreases |tokens|, 0
  {
    if tokens == [] then []
    else (if tokens[0].Identifier? then [Ended(tokens[0].text, order)] else []) + Directives(tokens[1..], order + 1)
  }

  /** .type NAME , MARKER */
  function TypeName(tokens: seq<Token>, order: nat): seq<Directive>
    decreases |tokens|, 2
  {
    if tokens == [] then []
    else if tokens[0].Identifier? then TypeComma(tokens[0].text, tokens[1..], order + 1)
    else Directives(tokens, order)
  }

  function TypeComma(name: string, tokens: seq<Token>, order: nat): seq<Directive>
    decreases |tokens|, 2
  {
    if tokens == [] then []
    else if tokens[0].Comma? then TypeMarker(name, tokens[1..], order + 1)
    else Directives(tokens, order)
  }

  function TypeMarker(name: string, tokens: seq<Token>, order: nat): seq<Directive>
    decreases |tokens|, 2
  {
    if tokens == [] then []
    else if FunctionMarker(tokens[0]) then [Typed(name, order)] + Directives(tokens[1..], order + 1)
    else if MarkerPrefix(tokens[0]) then PrefixedMarker(name, tokens[1..], order + 1)
    else Directives(tokens, order)
  }

  function PrefixedMarker(name: string, tokens: seq<Token>, order: nat): seq<Directive>
    decreases |tokens|, 0
  {
    if tokens == [] then []
    else
      (if FunctionMarker(tokens[0]) && Spelling(tokens[0]) == "function" then [Typed(name, order)] else [])
      + Directives(tokens[1..], order + 1)
  }

  // ---- labels ----

  datatype Label = Label(name: string, order: nat)

  /** Each identifier that a colon follows. */
  function Labels(tokens: seq<Token>): seq<Label> {
    if |tokens| < 2 then []
    else
      var n := |tokens| - 1;
      Labels(tokens[..n])
      + if tokens[n].Colon? && tokens[n - 1].Identifier? && tokens[n - 1].text != ""
        then [Label(tokens[n - 1].text, n - 1)] else []
  }

  // ---- functions ----

  datatype Function = Function(name: string, begin: nat, end: nat)

  function FirstLabel(labels: seq<Label>, name: string): Option<nat> {
    if labels == [] then None
    else
      var last := labels[|labels| - 1];
      var earlier := FirstLabel(labels[..|labels| - 1], name);
      if earlier.None? && last.name == name then Some(last.order) else earlier
  }

  function FirstTyped(directives: seq<Directive>, name: string): Option<nat> {
    if directives == [] then None
    else
      var last := directives[|directives| - 1];
      var earlier := FirstTyped(directives[..|directives| - 1], name);
      if earlier.None? && last.Typed? && last.name == name then Some(last.order) else earlier
  }

  /** The last .end of the name after the given token. */
  function LastEnd(directives: seq<Directive>, name: string, after: nat): Option<nat> {
    if directives == [] then None
    else
      var last := directives[|directives| - 1];
      if last.Ended? && last.name == name && last.order > after then Some(last.order)
      else LastEnd(directives[..|directives| - 1], name, after)
  }

  /** A name is a function once it has both a label and a type; this is the token that completed them. */
  function KnownAt(at: nat, typed: nat): nat {
    if at + 1 > typed then at + 1 else typed
  }

  /** The end that the directives give; 0 stands for none. */
  function MarkedEnd(directives: seq<Directive>, name: string, at: nat, typed: nat): nat {
    match LastEnd(directives, name, KnownAt(at, typed))
    case Some(end) => end
    case None => if typed > at then typed else 0
  }

  /** f is what the labels and directives say about its name, with 0 for an end they do not give. */
  predicate Described(labels: seq<Label>, directives: seq<Directive>, f: Function) {
    match (FirstLabel(labels, f.name), FirstTyped(directives, f.name))
    case (Some(at), Some(typed)) => f.begin == at && f.end == MarkedEnd(directives, f.name, at, typed)
    case _ => false
  }

  predicate IsFunction(labels: seq<Label>, directives: seq<Directive>, name: string) {
    FirstLabel(labels, name).Some? && FirstTyped(directives, name).Some?
  }

  /** fs holds each function once. */
  ghost predicate Complete(labels: seq<Label>, directives: seq<Directive>, fs: seq<Function>) {
    && (forall i | 0 <= i < |fs| :: Described(labels, directives, fs[i]))
    && (forall i, j | 0 <= i < j < |fs| :: fs[i].name != fs[j].name)
    && (forall name | IsFunction(labels, directives, name) :: exists i :: 0 <= i < |fs| && fs[i].name == name)
  }

  // ---- attribution ----

  predicate ByBegin(fs: seq<Function>) {
    forall i, j | 0 <= i < j < |fs| :: fs[i].begin < fs[j].begin
  }

  predicate Spans(f: Function, order: nat) {
    f.begin <= order <= f.end
  }

  /** The last of the functions that span the token. */
  function Containing(fs: seq<Function>, order: nat): Option<Function> {
    if fs == [] then None
    else
      var last := fs[|fs| - 1];
      if Spans(last, order) then Some(last) else Containing(fs[..|fs| - 1], order)
  }

  datatype Use = Use(target: string, order: nat, context: string)

  function Attributed(calls: seq<Call>, fs: seq<Function>): seq<Use> {
    if calls == [] then []
    else
      var last := calls[|calls| - 1];
      var owner := Containing(fs, last.order);
      Attributed(calls[..|calls| - 1], fs)
      + if owner.Some? then [Use(last.target, last.order, owner.value.name)] else []
  }

  /** Function i of the sorted functions with its end filled in. */
  function WithEnd(fs: seq<Function>, i: nat): Function
    requires i < |fs|
  {
    if fs[i].end >= fs[i].begin then fs[i]
    else fs[i].(end := if i + 1 < |fs| then fs[i + 1].begin else LAST)
  }

  function Closed(fs: seq<Function>): seq<Function> {
    seq(|fs|, i requires 0 <= i < |fs| => WithEnd(fs, i))
  }

  function InsertedByBegin(fs: seq<Function>, f: Function): seq<Function> {
    if fs == [] then [f]
    else if f.begin < fs[0].begin then [f] + fs
    else [fs[0]] + InsertedByBegin(fs[1..], f)
  }

  /** std::sort on the beginnings. */
  function SortedByBegin(fs: seq<Function>): seq<Function> {
    if fs == [] then [] else InsertedByBegin(SortedByBegin(fs[1..]), fs[0])
  }
}
