/** The calls that the indexer's handling of jal loses: a second grammar, and exactly where the two part. */
module AssemblyJal {
  import opened Wrappers
  import opened Assembly
  import opened AssemblyFacts

  // ---- a grammar that loses nothing ----

  /** Calls, except that the token behind jal TARGET is read again as the start of the next instruction, and that a
      target at the end of the stream is kept. */
  function AllCalls(tokens: seq<Token>, order: nat): seq<Call>
    decreases |tokens|, 1
  {
    if tokens == [] then []
    else
      var t, rest := tokens[0], tokens[1..];
      if !t.Identifier? then AllCalls(rest, order + 1)
      else if DirectCall(t.text) then AllOperand(rest, order + 1)
      else if t.text == "jal" then AllJalOperands(rest, order + 1)
      else if t.text == "brasl" then AllAfterComma(rest, order + 1)
      else AllCalls(rest, order + 1)
  }

  function AllOperand(tokens: seq<Token>, order: nat): seq<Call>
    decreases |tokens|, 0
  {
    if tokens == [] then []
    else (if tokens[0].Identifier? then [Call(tokens[0].text, order)] else []) + AllCalls(tokens[1..], order + 1)
  }

  function AllJalOperands(tokens: seq<Token>, order: nat): seq<Call>
    decreases |tokens|, 0
  {
    if tokens == [] then []
    else if !tokens[0].Identifier? then AllCalls(tokens[1..], order + 1)
    else AllJalEnd(Call(tokens[0].text, order), tokens[1..], order + 1)
  }

  function AllJalEnd(first: Call, tokens: seq<Token>, order: nat): seq<Call>
    decreases |tokens|, 2
  {
    if tokens != [] && tokens[0].Comma? then AllOperand(tokens[1..], order + 1)
    else [first] + AllCalls(tokens, order)
  }

  function AllAfterComma(tokens: seq<Token>, order: nat): seq<Call>
    decreases |tokens|, 0
  {
    if tokens == [] then []
    else if tokens[0].Comma? then AllOperand(tokens[1..], order + 1)
    else AllAfterComma(tokens[1..], order + 1)
  }

  // ---- where a loss happens ----

  predicate Mnemonic(t: Token) {
    t.Identifier? && (DirectCall(t.text) || t.text == "jal" || t.text == "brasl")
  }

  /** The tokens behind the first jal target that the stream ends with or a mnemonic follows. */
  function Loss(tokens: seq<Token>): Option<seq<Token>>
    decreases |tokens|, 1
  {
    if tokens == [] then None
    else
      var t, rest := tokens[0], tokens[1..];
      if !t.Identifier? then Loss(rest)
      else if DirectCall(t.text) then LossInOperand(rest)
      else if t.text == "jal" then LossInJal(rest)
      else if t.text == "brasl" then LossAfterComma(rest)
      else Loss(rest)
  }

  function LossInOperand(tokens: seq<Token>): Option<seq<Token>>
    decreases |tokens|, 0
  {
    if tokens == [] then None else Loss(tokens[1..])
  }

  function LossInJal(tokens: seq<Token>): Option<seq<Token>>
    decreases |tokens|, 0
  {
    if tokens == [] then None else if !tokens[0].Identifier? then Loss(tokens[1..]) else LossAtEnd(tokens[1..])
  }

  function LossAtEnd(tokens: seq<Token>): Option<seq<Token>>
    decreases |tokens|, 0
  {
    if tokens == [] || Mnemonic(tokens[0]) then Some(tokens)
    else if tokens[0].Comma? then LossInOperand(tokens[1..])
    else Loss(tokens[1..])
  }

  function LossAfterComma(tokens: seq<Token>): Option<seq<Token>>
    decreases |tokens|, 0
  {
    if tokens == [] then None
    else if tokens[0].Comma? then LossInOperand(tokens[1..])
    else LossAfterComma(tokens[1..])
  }

  // ---- up to the first loss both grammars agree ----

  /** What the indexer makes of a lost place: nothing at the end, otherwise it goes on behind the mnemonic. */
  function Lossy(first: Call, rest: seq<Token>, at: nat): seq<Call> {
    if rest == [] then [] else [first] + Calls(rest[1..], at + 1)
  }

  ghost predicate Parts(calls: seq<Call>, all: seq<Call>, common: seq<Call>, first: Call, rest: seq<Token>, at: nat) {
    calls == common + Lossy(first, rest, at) && all == common + ([first] + AllCalls(rest, at))
  }

  ghost predicate Agree(calls: seq<Call>, all: seq<Call>, loss: Option<seq<Token>>) {
    if loss.None? then calls == all
    else exists common, first, at: nat :: Parts(calls, all, common, first, loss.value, at)
  }

  lemma AgreeAfter(front: seq<Call>, calls: seq<Call>, all: seq<Call>, loss: Option<seq<Token>>)
    requires Agree(calls, all, loss)
    ensures Agree(front + calls, front + all, loss)
  {
    if loss.Some? {
      var common, first, at: nat :| Parts(calls, all, common, first, loss.value, at);
      var lossy, rest := Lossy(first, loss.value, at), [first] + AllCalls(loss.value, at);
      hide Lossy, AllCalls;
      assert front + (common + lossy) == front + common + lossy;
      assert front + (common + rest) == front + common + rest;
      assert Parts(front + calls, front + all, front + common, first, loss.value, at);
    }
  }

  lemma {:induction false} CallsAgree(tokens: seq<Token>, order: nat)
    ensures Agree(Calls(tokens, order), AllCalls(tokens, order), Loss(tokens))
    decreases |tokens|, 1
  {
    if tokens != [] {
      var rest := tokens[1..];
      CallsAgree(rest, order + 1);
      OperandAgrees(rest, order + 1);
      JalAgrees(rest, order + 1);
      AfterCommaAgrees(rest, order + 1);
      hide Agree, DirectCall, Operand, AllOperand, LossInOperand, JalOperands, AllJalOperands, LossInJal, AfterComma,
        AllAfterComma, LossAfterComma;
    }
  }

  lemma {:induction false} OperandAgrees(tokens: seq<Token>, order: nat)
    ensures Agree(Operand(tokens, order), AllOperand(tokens, order), LossInOperand(tokens))
    decreases |tokens|, 0
  {
    if tokens != [] {
      CallsAgree(tokens[1..], order + 1);
      hide Agree, Calls, AllCalls, Loss;
      AgreeAfter(if tokens[0].Identifier? then [Call(tokens[0].text, order)] else [],
                 Calls(tokens[1..], order + 1), AllCalls(tokens[1..], order + 1), Loss(tokens[1..]));
    }
  }

  lemma {:induction false} AfterCommaAgrees(tokens: seq<Token>, order: nat)
    ensures Agree(AfterComma(tokens, order), AllAfterComma(tokens, order), LossAfterComma(tokens))
    decreases |tokens|, 0
  {
    if tokens != [] {
      OperandAgrees(tokens[1..], order + 1);
      AfterCommaAgrees(tokens[1..], order + 1);
      hide Agree, Operand, AllOperand, LossInOperand;
    }
  }

  lemma {:induction false} JalAgrees(tokens: seq<Token>, order: nat)
    ensures Agree(JalOperands(tokens, order), AllJalOperands(tokens, order), LossInJal(tokens))
    decreases |tokens|, 0
  {
    if tokens != [] {
      CallsAgree(tokens[1..], order + 1);
      if tokens[0].Identifier? {
        JalEndAgrees(Call(tokens[0].text, order), tokens[1..], order + 1);
      }
      hide Agree, Calls, AllCalls, Loss, JalEnd, AllJalEnd, LossAtEnd;
    }
  }

  lemma {:induction false} JalEndAgrees(first: Call, tokens: seq<Token>, order: nat)
    ensures Agree(JalEnd(first, tokens, order), AllJalEnd(first, tokens, order), LossAtEnd(tokens))
    decreases |tokens|, 0
  {
    if tokens == [] || Mnemonic(tokens[0]) {
      LossHere(first, tokens, order);
    } else if tokens[0].Comma? {
      OperandAgrees(tokens[1..], order + 1);
      hide Agree, Operand, AllOperand, LossInOperand;
    } else {
      CallsAgree(tokens[1..], order + 1);
      PlainIsSkipped(tokens, order);
      hide Agree, Calls, AllCalls, Loss;
      AgreeAfter([first], Calls(tokens[1..], order + 1), AllCalls(tokens[1..], order + 1), Loss(tokens[1..]));
    }
  }

  lemma LossHere(first: Call, tokens: seq<Token>, order: nat)
    requires tokens == [] || Mnemonic(tokens[0])
    ensures Agree(JalEnd(first, tokens, order), AllJalEnd(first, tokens, order), Some(tokens))
  {
    hide Calls, AllCalls, DirectCall;
    var calls, all := JalEnd(first, tokens, order), AllJalEnd(first, tokens, order);
    assert [] + calls == calls && [] + all == all;
    assert Parts(calls, all, [], first, tokens, order);
  }

  lemma PlainIsSkipped(tokens: seq<Token>, order: nat)
    requires tokens != [] && !Mnemonic(tokens[0])
    ensures Calls(tokens, order) == Calls(tokens[1..], order + 1)
    ensures AllCalls(tokens, order) == AllCalls(tokens[1..], order + 1)
  {
    hide DirectCall;
  }

  // ---- a loss shows when the mnemonic begins an instruction ----

  /** The tokens begin with a mnemonic and its target. A jal names brasl as its link register in no assembler. */
  predicate Instruction(tokens: seq<Token>) {
    && |tokens| >= 2 && tokens[0].Identifier?
    && if DirectCall(tokens[0].text) then tokens[1].Identifier?
       else if tokens[0].text == "jal" then
         && tokens[1].Identifier?
         && (|tokens| > 2 && tokens[2].Comma? ==>
               |tokens| > 3 && tokens[3].Identifier? && tokens[1].text != "brasl")
       else tokens[0].text == "brasl" && TargetBehindComma(tokens[1..])
  }

  /** Operands without a mnemonic, a comma, and an identifier. */
  predicate TargetBehindComma(tokens: seq<Token>) {
    && |tokens| >= 2 && !Mnemonic(tokens[0])
    && if tokens[0].Comma? then tokens[1].Identifier? else TargetBehindComma(tokens[1..])
  }

  /** The first token is never a target itself. */
  lemma TargetsAreLater(tokens: seq<Token>, order: nat)
    ensures tokens != [] ==> forall c | c in Calls(tokens, order) :: c.order > order
  {
    if tokens != [] {
      var rest := tokens[1..];
      CallsPlaced(rest, order + 1);
      OperandPlaced(rest, order + 1);
      JalPlaced(rest, order + 1);
      AfterCommaPlaced(rest, order + 1);
      PlacedAfter(Calls(rest, order + 1), rest, order + 1);
      PlacedAfter(Operand(rest, order + 1), rest, order + 1);
      PlacedAfter(JalOperands(rest, order + 1), rest, order + 1);
      PlacedAfter(AfterComma(rest, order + 1), rest, order + 1);
      hide Placed, DirectCall, Operand, JalOperands, AfterComma;
    }
  }

  lemma PlacedAfter(calls: seq<Call>, tokens: seq<Token>, order: nat)
    requires Placed(calls, tokens, order, order)
    ensures forall c | c in calls :: c.order >= order
  {
  }

  lemma {:induction false} TargetBehindCommaSeen(tokens: seq<Token>, order: nat)
    requires TargetBehindComma(tokens)
    ensures var all := AllAfterComma(tokens, order);
            all != [] && forall c | c in Calls(tokens, order) :: c.order > all[0].order
    decreases |tokens|
  {
    PlainIsSkipped(tokens, order);
    hide Mnemonic, Calls, AllCalls;
    if tokens[0].Comma? {
      assert tokens[1..][0] == tokens[1];
      TargetsAreLater(tokens[1..], order + 1);
    } else {
      TargetBehindCommaSeen(tokens[1..], order + 1);
    }
  }

  /** The instruction is in the second grammar, and the first, starting behind its mnemonic, has nothing as early. */
  lemma InstructionSeen(tokens: seq<Token>, order: nat)
    requires Instruction(tokens)
    ensures var all := AllCalls(tokens, order);
            all != [] && forall c | c in Calls(tokens[1..], order + 1) :: c.order > all[0].order
  {
    var rest := tokens[1..];
    if DirectCall(tokens[0].text) {
      TargetsAreLater(rest, order + 1);
      hide Calls, DirectCall, Mnemonic;
    } else if tokens[0].text == "jal" {
      JalSeen(rest, order + 1);
      hide Calls, DirectCall, Mnemonic, AllJalOperands;
    } else {
      TargetBehindCommaSeen(rest, order + 1);
      hide Calls, DirectCall, Mnemonic, AllAfterComma;
    }
  }

  lemma JalSeen(tokens: seq<Token>, order: nat)
    requires tokens != [] && tokens[0].Identifier?
    requires |tokens| > 1 && tokens[1].Comma? ==>
               |tokens| > 2 && tokens[2].Identifier? && tokens[0].text != "brasl"
    ensures var all := AllJalOperands(tokens, order);
            all != [] && forall c | c in Calls(tokens, order) :: c.order > all[0].order
  {
    if |tokens| > 1 && tokens[1].Comma? {
      LinkIsSkipped(tokens, order);
      assert tokens[1..][0] == tokens[1] && tokens[1..][1..][0] == tokens[2];
      TargetsAreLater(tokens[1..][1..], order + 2);
      hide Calls, AllCalls;
      assert AllJalOperands(tokens, order) == AllJalEnd(Call(tokens[0].text, order), tokens[1..], order + 1);
      assert AllOperand(tokens[1..][1..], order + 2)[0] == Call(tokens[2].text, order + 2);
    } else {
      TargetsAreLater(tokens, order);
      hide Calls, AllCalls;
    }
  }

  /** A link register and its comma are no call, even when the register is spelled like a mnemonic. */
  lemma LinkIsSkipped(tokens: seq<Token>, order: nat)
    requires |tokens| > 1 && tokens[1].Comma? && tokens[0].Identifier? && tokens[0].text != "brasl"
    ensures Calls(tokens, order) == Calls(tokens[1..][1..], order + 2)
  {
    hide DirectCall;
    var rest := tokens[1..];
    assert rest[0].Comma?;
    assert Calls(rest, order + 1) == Calls(rest[1..], order + 2);
    assert Operand(rest, order + 1) == [] + Calls(rest[1..], order + 2);
    assert JalOperands(rest, order + 1) == Calls(rest[1..], order + 2);
  }

  // ---- when the indexer loses nothing ----

  predicate JalTarget(tokens: seq<Token>, i: nat) {
    i + 1 < |tokens| && tokens[i] == Identifier("jal") && tokens[i + 1].Identifier?
  }

  predicate Followed(tokens: seq<Token>, i: nat) {
    i + 2 < |tokens| && !Mnemonic(tokens[i + 2])
  }

  /** No jal target is the last token or directly followed by a mnemonic. */
  predicate Clean(tokens: seq<Token>) {
    forall i: nat | i < |tokens| && JalTarget(tokens, i) :: Followed(tokens, i)
  }

  lemma CleanRest(tokens: seq<Token>)
    requires Clean(tokens) && tokens != []
    ensures Clean(tokens[1..])
  {
    hide Mnemonic;
    var rest := tokens[1..];
    forall i: nat | i < |rest| && JalTarget(rest, i) ensures Followed(rest, i) {
      assert JalTarget(tokens, i + 1) && Followed(tokens, i + 1);
    }
  }

  lemma {:induction false} CleanHasNoLoss(tokens: seq<Token>)
    requires Clean(tokens)
    ensures Loss(tokens).None?
    decreases |tokens|, 1
  {
    hide DirectCall;
    if tokens != [] {
      CleanRest(tokens);
      CleanHasNoLoss(tokens[1..]);
      CleanOperand(tokens[1..]);
      CleanAfterComma(tokens[1..]);
      if tokens[0] == Identifier("jal") {
        CleanJal(tokens);
      }
      hide Clean, LossInOperand, LossAfterComma, LossInJal;
    }
  }

  lemma {:induction false} CleanJal(tokens: seq<Token>)
    requires Clean(tokens) && tokens != [] && tokens[0] == Identifier("jal")
    ensures LossInJal(tokens[1..]).None?
    decreases |tokens|, 0
  {
    var rest := tokens[1..];
    CleanRest(tokens);
    if rest != [] {
      CleanRest(rest);
      var last := rest[1..];
      CleanHasNoLoss(last);
      if rest[0].Identifier? {
        assert JalTarget(tokens, 0);
        assert Followed(tokens, 0);
        assert last != [] && last[0] == tokens[2];
        CleanRest(last);
        CleanHasNoLoss(last[1..]);
        CleanOperand(last[1..]);
      }
    }
    hide Clean, Loss, LossInOperand, Mnemonic;
  }

  lemma {:induction false} CleanOperand(tokens: seq<Token>)
    requires Clean(tokens)
    ensures LossInOperand(tokens).None?
    decreases |tokens|, 0
  {
    if tokens != [] {
      CleanRest(tokens);
      CleanHasNoLoss(tokens[1..]);
    }
  }

  lemma {:induction false} CleanAfterComma(tokens: seq<Token>)
    requires Clean(tokens)
    ensures LossAfterComma(tokens).None?
    decreases |tokens|, 0
  {
    if tokens != [] {
      CleanRest(tokens);
      CleanOperand(tokens[1..]);
      CleanAfterComma(tokens[1..]);
    }
  }

  /** A stream in which no jal target is last or directly followed by a mnemonic loses no call. */
  lemma CleanStreamsLoseNothing(tokens: seq<Token>)
    requires Clean(tokens)
    ensures Calls(tokens, 0) == AllCalls(tokens, 0)
  {
    CleanHasNoLoss(tokens);
    CallsAgree(tokens, 0);
  }

  /** When every mnemonic that directly follows a jal target begins an instruction, calls are lost exactly when some
      jal that the indexer reads has its target last or directly followed by a mnemonic. */
  lemma LossIsExact(tokens: seq<Token>)
    requires Loss(tokens).Some? && Loss(tokens).value != [] ==> Instruction(Loss(tokens).value)
    ensures Calls(tokens, 0) == AllCalls(tokens, 0) <==> Loss(tokens).None?
  {
    CallsAgree(tokens, 0);
    hide Calls, AllCalls, Loss, Instruction;
    if Loss(tokens).Some? {
      var rest := Loss(tokens).value;
      var common, first, at: nat :| Parts(Calls(tokens, 0), AllCalls(tokens, 0), common, first, rest, at);
      if rest != [] {
        InstructionSeen(rest, at);
      }
      PartsDiffer(common, first, rest, at);
    }
  }

  lemma PartsDiffer(common: seq<Call>, first: Call, rest: seq<Token>, at: nat)
    requires rest != [] ==> AllCalls(rest, at) != [] &&
                            forall c | c in Calls(rest[1..], at + 1) :: c.order > AllCalls(rest, at)[0].order
    ensures common + Lossy(first, rest, at) != common + ([first] + AllCalls(rest, at))
  {
    hide Calls, AllCalls;
    var n := |common|;
    var lossy, whole := common + Lossy(first, rest, at), common + ([first] + AllCalls(rest, at));
    if rest != [] && |lossy| == |whole| {
      var calls := Calls(rest[1..], at + 1);
      assert lossy[n + 1] == calls[0] && whole[n + 1] == AllCalls(rest, at)[0];
      assert calls[0] in calls;
    }
  }

  /** One jal with its target: the token behind it is lost to the first grammar and read by the second. */
  lemma JalRead(target: string, rest: seq<Token>, order: nat)
    requires rest != [] ==> !rest[0].Comma?
    ensures var tokens := [Identifier("jal"), Identifier(target)] + rest;
            && Calls(tokens, order) == Lossy(Call(target, order + 1), rest, order + 2)
            && AllCalls(tokens, order) == [Call(target, order + 1)] + AllCalls(rest, order + 2)
  {
    JalIsNoDirectCall();
    hide DirectCall;
    var tokens := [Identifier("jal"), Identifier(target)] + rest;
    var behind := [Identifier(target)] + rest;
    assert tokens[1..] == behind && behind[1..] == rest;
    assert Calls(tokens, order) == JalOperands(behind, order + 1);
    assert AllCalls(tokens, order) == AllJalOperands(behind, order + 1);
    hide Calls, AllCalls;
    assert AllJalOperands(behind, order + 1) == AllJalEnd(Call(target, order + 1), rest, order + 2);
    assert JalOperands(behind, order + 1) == JalEnd(Call(target, order + 1), rest, order + 2);
  }

  /** Of two adjacent jal instructions the second one is lost, and so is one that ends the stream. */
  lemma AdjacentJalIsLost(first: string, second: string)
    requires !Mnemonic(Identifier(second))
    ensures var one := [Identifier("jal"), Identifier(first)];
            var two := one + [Identifier("jal"), Identifier(second), Period];
            && Calls(one, 0) == [] && AllCalls(one, 0) == [Call(first, 1)]
            && Calls(two, 0) == [Call(first, 1)] && AllCalls(two, 0) == [Call(first, 1), Call(second, 3)]
  {
    var one := [Identifier("jal"), Identifier(first)];
    var next := [Identifier("jal"), Identifier(second), Period];
    JalRead(first, [], 0);
    assert one + [] == one;
    JalRead(first, next, 0);
    JalRead(second, [Period], 2);
    assert [Identifier("jal"), Identifier(second)] + [Period] == next;
    assert next[1..] == [Identifier(second), Period];
    assert AllCalls([], 2) == [];
    PlainEnd(second);
    hide Calls, AllCalls;
  }

  lemma PlainEnd(text: string)
    requires !Mnemonic(Identifier(text))
    ensures Calls([Identifier(text), Period], 3) == [] && AllCalls([Period], 4) == []
  {
    hide Mnemonic;
    var tokens := [Identifier(text), Period];
    PlainIsSkipped(tokens, 3);
    assert tokens[1..] == [Period] && [Period][1..] == [];
  }

  lemma JalIsNoDirectCall()
    ensures !DirectCall("jal")
  {
  }

  /** A mnemonic without a target may follow unnoticed: there is nothing to lose. */
  lemma BareMnemonicLosesNothing(target: string)
    ensures var tokens := [Identifier("jal"), Identifier(target), Identifier("call")];
            Loss(tokens).Some? && Calls(tokens, 0) == AllCalls(tokens, 0)
  {
    JalIsNoDirectCall();
    var tokens := [Identifier("jal"), Identifier(target), Identifier("call")];
    var t1, t2 := [Identifier(target), Identifier("call")], [Identifier("call")];
    assert tokens[1..] == t1 && t1[1..] == t2 && t2[1..] == [];
    assert Calls(tokens, 0) == JalOperands(t1, 1) == [Call(target, 1)] + Calls([], 3);
    assert AllCalls(t2, 2) == AllOperand([], 3);
    assert AllCalls(tokens, 0) == AllJalOperands(t1, 1) == [Call(target, 1)] + AllCalls(t2, 2);
    assert Loss(tokens) == LossInJal(t1) == LossAtEnd(t2);
  }
}
