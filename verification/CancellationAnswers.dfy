/** What a request answers, read off the steps of the run. */
module CancellationAnswers {
  import opened Wrappers
  import opened Index
  import opened Cancellation
  import opened CancellationSafety

  // ---- the steps of one worker ----

  /** The i-th action is a step of request k's worker, which finds the request like this. */
  ghost predicate StepAt(actions: seq<Action>, i: nat, k: nat, before: Request, choice: Choice) {
    && i < |actions| && actions[i] == WorkerStep(k, choice) && Run(START, actions[..i]).Some?
    && k < |Run(START, actions[..i]).value.requests| && Run(START, actions[..i]).value.requests[k] == before
  }

  /** The payload holds no tool call. */
  ghost predicate ParseFailed(actions: seq<Action>, k: nat) {
    exists i: nat, before, choice :: StepAt(actions, i, k, before, choice) && before.worker.Parsing? && !choice.ok
  }

  /** The tool comes back: it was stopped before it began, could not begin, or has run. */
  predicate ToolEnds(before: Request, choice: Choice) {
    || before.worker.Running?
    || (before.worker.Calling? && (before.cancelled || before.timedOut || before.expired || !choice.ok))
  }

  predicate IsStop(before: Request, status: Status) {
    status == if before.cancelled then Cancelled else DeadlineExceeded
  }

  /** What it says: the stop when that kept it from beginning or when it noticed it, and else what the step brings. */
  predicate ToolSays(before: Request, choice: Choice, status: Status) {
    var stopped := before.cancelled || before.timedOut || before.expired;
    && (stopped && before.worker.Calling? ==> IsStop(before, status))
    && (stopped && (choice.status.Cancelled? || choice.status.DeadlineExceeded?) ==> IsStop(before, status))
    && ((!stopped || before.worker.Running?) && IsOutcome(choice.status) ==> status == choice.status)
  }

  predicate IsOutcome(status: Status) {
    status.Success? || status.InvalidParams? || status.UnknownTool? || status.DatabaseError?
  }

  ghost predicate ToolSaid(actions: seq<Action>, k: nat, status: Status) {
    exists i: nat, before, choice ::
      StepAt(actions, i, k, before, choice) && ToolEnds(before, choice) && ToolSays(before, choice, status)
  }

  /** The flags as the worker found them when it decided, and else what the tool said. */
  predicate Verdict(deciding: Request, said: Status, status: Status) {
    && deciding.worker.Deciding?
    && (deciding.cancelled ==> status.Cancelled?)
    && (!deciding.cancelled && deciding.timedOut ==> status.DeadlineExceeded?)
    && (!deciding.cancelled && !deciding.timedOut ==> status == said)
  }

  ghost predicate Decided(actions: seq<Action>, k: nat, status: Status) {
    exists i: nat, deciding, choice, said ::
      StepAt(actions, i, k, deciding, choice) && Verdict(deciding, said, status) && ToolSaid(actions, k, said)
  }

  // ---- what the steps so far have led to ----

  predicate PastTool(w: Worker) {
    w.Unbinding? || w.UnbindLocked? || w.UnbindCleared? || w.Closing? || w.Completing? || w.Joining? || w.Deciding?
  }

  predicate Refused(w: Worker) {
    w.RefusedCompleting? || w.RefusedJoining?
  }

  ghost predicate Explained(actions: seq<Action>, k: nat, responses: seq<Status>) {
    || (responses == [Malformed] && ParseFailed(actions, k))
    || (|responses| == 1 && Decided(actions, k, responses[0]))
  }

  ghost predicate History(actions: seq<Action>, k: nat, r: Request) {
    && (r.worker.Refusing? ==> ParseFailed(actions, k) && r.responses == [])
    && (Refused(r.worker) ==> ParseFailed(actions, k) && r.responses == [Malformed])
    && (PastTool(r.worker) ==> ToolSaid(actions, k, r.result) && r.responses == [])
    && (r.worker.Responding? ==> Decided(actions, k, r.result) && r.responses == [])
    && (r.worker.Finishing? || r.worker.Gone? ==> Explained(actions, k, r.responses))
    && (r.responses != [] ==> Answered(r.worker))
  }

  lemma StepStays(actions: seq<Action>, a: Action, i: nat, k: nat, before: Request, choice: Choice)
    requires StepAt(actions, i, k, before, choice)
    ensures StepAt(actions + [a], i, k, before, choice)
  {
    hide Run;
    assert (actions + [a])[..i] == actions[..i];
  }

  lemma ToolSaidStays(actions: seq<Action>, a: Action, k: nat, status: Status)
    requires ToolSaid(actions, k, status)
    ensures ToolSaid(actions + [a], k, status)
  {
    hide StepAt, ToolEnds, ToolSays;
    var i: nat, before, choice :|
      StepAt(actions, i, k, before, choice) && ToolEnds(before, choice) && ToolSays(before, choice, status);
    StepStays(actions, a, i, k, before, choice);
  }

  lemma ParseFailedStays(actions: seq<Action>, a: Action, k: nat)
    requires ParseFailed(actions, k)
    ensures ParseFailed(actions + [a], k)
  {
    hide StepAt;
    var i: nat, before, choice :| StepAt(actions, i, k, before, choice) && before.worker.Parsing? && !choice.ok;
    StepStays(actions, a, i, k, before, choice);
  }

  lemma DecidedStays(actions: seq<Action>, a: Action, k: nat, status: Status)
    requires Decided(actions, k, status)
    ensures Decided(actions + [a], k, status)
  {
    hide StepAt, Verdict, ToolSaid;
    var i: nat, deciding, choice, said :|
      StepAt(actions, i, k, deciding, choice) && Verdict(deciding, said, status) && ToolSaid(actions, k, said);
    StepStays(actions, a, i, k, deciding, choice);
    ToolSaidStays(actions, a, k, said);
  }

  /** Other threads leave the worker, its result and its answers alone. */
  predicate SameProgress(r: Request, t: Request) {
    t.worker == r.worker && t.result == r.result && t.responses == r.responses
  }

  lemma HistoryStays(actions: seq<Action>, a: Action, k: nat, r: Request, t: Request)
    requires History(actions, k, r) && SameProgress(r, t)
    ensures History(actions + [a], k, t)
  {
    hide ToolSaid, ParseFailed, Decided;
    if ParseFailed(actions, k) {
      ParseFailedStays(actions, a, k);
    }
    if PastTool(r.worker) {
      ToolSaidStays(actions, a, k, r.result);
    }
    if Decided(actions, k, r.result) {
      DecidedStays(actions, a, k, r.result);
    }
    if r.responses != [] && Decided(actions, k, r.responses[0]) {
      DecidedStays(actions, a, k, r.responses[0]);
    }
  }

  lemma LastStep(actions: seq<Action>, k: nat, before: Request, choice: Choice)
    requires Run(START, actions).Some? && k < |Run(START, actions).value.requests|
    requires before == Run(START, actions).value.requests[k]
    ensures StepAt(actions + [WorkerStep(k, choice)], |actions|, k, before, choice)
  {
    hide Run;
    assert (actions + [WorkerStep(k, choice)])[..|actions|] == actions;
  }

  lemma BeginHistory(actions: seq<Action>, k: nat, r: Request, choice: Choice)
    requires StepAt(actions + [WorkerStep(k, choice)], |actions|, k, r, choice) && History(actions, k, r)
    requires (r.worker.Starting? || r.worker.Parsing? || r.worker.Calling?) && Begin(r, choice).Some?
    ensures History(actions + [WorkerStep(k, choice)], k, Begin(r, choice).value)
  {
    hide StepAt;
    var t := Begin(r, choice).value;
    if t.worker.Completing? {
      assert ToolEnds(r, choice) && ToolSays(r, choice, t.result);
    }
  }

  lemma RefuseMoves(r: Request)
    requires Refuse(r).Some?
    ensures var t := Refuse(r).value;
            && (r.worker.Refusing? || Refused(r.worker)) && (Refused(t.worker) || t.worker.Finishing?)
            && t.responses == r.responses + if r.worker.Refusing? then [Malformed] else []
  {
    match r.worker
    case Refusing =>
    case RefusedCompleting => assert r.responses + [] == r.responses;
    case RefusedJoining => assert r.responses + [] == r.responses;
    case _ =>
  }

  lemma RefuseHistory(actions: seq<Action>, k: nat, r: Request, choice: Choice)
    requires History(actions, k, r) && Refuse(r).Some?
    ensures History(actions + [WorkerStep(k, choice)], k, Refuse(r).value)
  {
    hide *;
    RefuseMoves(r);
    RefusedHistory(actions, WorkerStep(k, choice), k, r, Refuse(r).value);
  }

  lemma RefusedHistory(actions: seq<Action>, a: Action, k: nat, r: Request, t: Request)
    requires History(actions, k, r) && (r.worker.Refusing? || Refused(r.worker))
    requires Refused(t.worker) || t.worker.Finishing?
    requires t.responses == r.responses + if r.worker.Refusing? then [Malformed] else []
    ensures History(actions + [a], k, t)
  {
    hide ParseFailed, ToolSaid, Decided;
    ParseFailedStays(actions, a, k);
    assert [] + [Malformed] == [Malformed] && [Malformed] + [] == [Malformed];
  }

  lemma ToolHistory(actions: seq<Action>, k: nat, r: Request, choice: Choice)
    requires StepAt(actions + [WorkerStep(k, choice)], |actions|, k, r, choice) && History(actions, k, r)
    requires r.worker.Running?
    ensures History(actions + [WorkerStep(k, choice)], k, Unbind(r, choice).value)
  {
    hide StepAt, ParseFailed, Decided, Explained;
    var said := Unbind(r, choice).value.result;
    assert ToolEnds(r, choice) && ToolSays(r, choice, said);
    hide ToolSays;
    assert ToolSaid(actions + [WorkerStep(k, choice)], k, said);
  }

  lemma UnbindMoves(r: Request, choice: Choice)
    requires Unbind(r, choice).Some? && !r.worker.Running?
    ensures var t := Unbind(r, choice).value;
            PastTool(r.worker) && PastTool(t.worker) && t.result == r.result && t.responses == r.responses
  {
    hide ToolStatus;
    match r.worker
    case Unbinding =>
    case UnbindLocked =>
    case UnbindCleared =>
    case Closing =>
    case _ =>
  }

  lemma UnbindHistory(actions: seq<Action>, k: nat, r: Request, choice: Choice)
    requires History(actions, k, r) && Unbind(r, choice).Some? && !r.worker.Running?
    ensures History(actions + [WorkerStep(k, choice)], k, Unbind(r, choice).value)
  {
    hide *;
    UnbindMoves(r, choice);
    PastToolHistory(actions, WorkerStep(k, choice), k, r, Unbind(r, choice).value);
  }

  lemma PastToolHistory(actions: seq<Action>, a: Action, k: nat, r: Request, t: Request)
    requires History(actions, k, r) && PastTool(r.worker) && PastTool(t.worker)
    requires t.result == r.result && t.responses == r.responses
    ensures History(actions + [a], k, t)
  {
    hide ToolSaid, ParseFailed, Decided, Explained;
    ToolSaidStays(actions, a, k, r.result);
  }

  predicate InBind(w: Worker) {
    || w.Binding? || w.BindLocked? || w.BindStored? || w.BindChecked? || w.BindInterrupting? || w.BindUnlocking?
    || w.Running?
  }

  lemma BindMoves(r: Request)
    requires Bind(r).Some?
    ensures InBind(r.worker) && InBind(Bind(r).value.worker) && Bind(r).value.responses == r.responses
  {
  }

  lemma BindHistory(actions: seq<Action>, k: nat, r: Request, choice: Choice)
    requires History(actions, k, r) && Bind(r).Some?
    ensures History(actions + [WorkerStep(k, choice)], k, Bind(r).value)
  {
    hide *;
    BindMoves(r);
    InBindHistory(actions, WorkerStep(k, choice), k, r, Bind(r).value);
  }

  lemma InBindHistory(actions: seq<Action>, a: Action, k: nat, r: Request, t: Request)
    requires History(actions, k, r) && InBind(r.worker) && InBind(t.worker) && t.responses == r.responses
    ensures History(actions + [a], k, t)
  {
    hide ToolSaid, ParseFailed, Decided, Explained;
  }

  predicate AnswersNow(w: Worker) {
    w.Completing? || w.Joining? || w.Deciding? || w.Responding?
  }

  lemma AnswersNowMeans(w: Worker)
    ensures AnswersNow(w) <==> w.Completing? || w.Joining? || w.Deciding? || w.Responding?
  {
  }

  lemma WaitingMoves(r: Request)
    requires (r.worker.Completing? || r.worker.Joining?) && Answer(r).Some?
    ensures var t := Answer(r).value; PastTool(t.worker) && t.result == r.result && t.responses == r.responses
  {
  }

  lemma DecidingMoves(r: Request)
    requires r.worker.Deciding?
    ensures Answer(r).Some? && Answer(r).value.worker.Responding? && Answer(r).value.responses == r.responses
    ensures Verdict(r, r.result, Answer(r).value.result)
  {
  }

  lemma RespondingMoves(r: Request)
    requires r.worker.Responding?
    ensures Answer(r).Some? && Answer(r).value.worker.Finishing?
    ensures Answer(r).value.responses == r.responses + [r.result]
  {
  }

  lemma FinishingMoves(r: Request)
    requires r.worker.Finishing?
    ensures Answer(r).Some? && Answer(r).value.worker.Gone? && Answer(r).value.responses == r.responses
  {
  }

  lemma AnswerHistory(actions: seq<Action>, k: nat, r: Request, choice: Choice)
    requires StepAt(actions + [WorkerStep(k, choice)], |actions|, k, r, choice) && History(actions, k, r)
    requires Answer(r).Some? && AnswersNow(r.worker)
    ensures History(actions + [WorkerStep(k, choice)], k, Answer(r).value)
  {
    var a := WorkerStep(k, choice);
    hide *;
    AnswersNowMeans(r.worker);
    if r.worker.Responding? {
      RespondingMoves(r);
      RespondedHistory(actions, a, k, r, Answer(r).value);
    } else if r.worker.Deciding? {
      DecidingMoves(r);
      DecidedHistory(actions, k, r, choice, Answer(r).value);
    } else {
      WaitingMoves(r);
      WaitedHistory(actions, a, k, r, Answer(r).value);
    }
  }

  lemma WaitedHistory(actions: seq<Action>, a: Action, k: nat, r: Request, t: Request)
    requires History(actions, k, r) && (r.worker.Completing? || r.worker.Joining?) && PastTool(t.worker)
    requires t.result == r.result && t.responses == r.responses
    ensures History(actions + [a], k, t)
  {
    hide History;
    PastToolHistory(actions, a, k, r, t);
  }

  lemma DecidedHistory(actions: seq<Action>, k: nat, r: Request, choice: Choice, t: Request)
    requires StepAt(actions + [WorkerStep(k, choice)], |actions|, k, r, choice) && History(actions, k, r)
    requires r.worker.Deciding? && t.worker.Responding? && t.responses == r.responses && Verdict(r, r.result, t.result)
    ensures History(actions + [WorkerStep(k, choice)], k, t)
  {
    hide StepAt, ToolSaid, ParseFailed, Verdict, Explained;
    ToolSaidStays(actions, WorkerStep(k, choice), k, r.result);
  }

  lemma RespondedHistory(actions: seq<Action>, a: Action, k: nat, r: Request, t: Request)
    requires History(actions, k, r) && r.worker.Responding? && t.worker.Finishing?
    requires t.responses == r.responses + [r.result]
    ensures History(actions + [a], k, t)
  {
    hide ToolSaid, ParseFailed, Decided;
    DecidedStays(actions, a, k, r.result);
    assert [] + [r.result] == [r.result];
  }

  lemma WorkHistory(actions: seq<Action>, k: nat, r: Request, choice: Choice)
    requires StepAt(actions + [WorkerStep(k, choice)], |actions|, k, r, choice) && History(actions, k, r)
    requires Work(r, choice).Some?
    ensures History(actions + [WorkerStep(k, choice)], k, Work(r, choice).value)
  {
    hide StepAt, History, Begin, Refuse, Bind, Unbind, Answer, SameProgress;
    match r.worker
    case Starting => BeginHistory(actions, k, r, choice);
    case Parsing => BeginHistory(actions, k, r, choice);
    case Calling => BeginHistory(actions, k, r, choice);
    case Refusing => RefuseHistory(actions, k, r, choice);
    case RefusedCompleting => RefuseHistory(actions, k, r, choice);
    case RefusedJoining => RefuseHistory(actions, k, r, choice);
    case Binding => BindHistory(actions, k, r, choice);
    case BindLocked => BindHistory(actions, k, r, choice);
    case BindStored => BindHistory(actions, k, r, choice);
    case BindChecked => BindHistory(actions, k, r, choice);
    case BindInterrupting => BindHistory(actions, k, r, choice);
    case BindUnlocking => BindHistory(actions, k, r, choice);
    case Running => ToolHistory(actions, k, r, choice);
    case Unbinding => UnbindHistory(actions, k, r, choice);
    case UnbindLocked => UnbindHistory(actions, k, r, choice);
    case UnbindCleared => UnbindHistory(actions, k, r, choice);
    case Closing => UnbindHistory(actions, k, r, choice);
    case Completing => AnswerHistory(actions, k, r, choice);
    case Joining => AnswerHistory(actions, k, r, choice);
    case Deciding => AnswerHistory(actions, k, r, choice);
    case Responding => AnswerHistory(actions, k, r, choice);
    case Finishing => FinishHistory(actions, k, r, choice);
    case Gone =>
  }

  lemma FinishHistory(actions: seq<Action>, k: nat, r: Request, choice: Choice)
    requires History(actions, k, r) && r.worker.Finishing?
    ensures History(actions + [WorkerStep(k, choice)], k, Answer(r).value)
  {
    HistoryStays(actions, WorkerStep(k, choice), k, r, r);
    hide StepAt, ToolSaid, ParseFailed, Decided, Explained;
  }

  lemma InterruptLeavesProgress(r: Request)
    ensures SameProgress(r, InterruptIfBound(r))
  {
  }

  lemma WatchLeavesProgress(r: Request)
    requires Watch(r).Some?
    ensures SameProgress(r, Watch(r).value)
  {
    InterruptLeavesProgress(r);
    hide InterruptIfBound;
    match r.watcher
    case Waiting =>
    case TimedOut =>
    case Holding =>
    case Unlocking =>
    case _ =>
  }

  lemma CancelLeavesProgress(r: Request)
    requires Cancel(r).Some?
    ensures SameProgress(r, Cancel(r).value)
  {
    InterruptLeavesProgress(r);
    hide InterruptIfBound;
    match r.canceller
    case Out =>
    case Marked =>
    case Locked =>
    case Unlocked =>
  }

  lemma OthersLeaveProgress(s: Server, a: Action, k: nat)
    requires Next(s, a).Some? && k < |s.requests| && !(a.WorkerStep? && a.k == k)
    ensures k < |Next(s, a).value.requests| && SameProgress(s.requests[k], Next(s, a).value.requests[k])
  {
    hide Work, Live, Watch, Cancel, SameProgress;
    SameAsBefore(s.requests[k]);
    match a
    case WatcherStep(j) => if j == k { WatchLeavesProgress(s.requests[k]); }
    case CancelStep =>
      if s.dispatcher.todo != [] && s.dispatcher.todo[0] == k { CancelLeavesProgress(s.requests[k]); }
    case _ =>
  }

  lemma SameAsBefore(r: Request)
    ensures SameProgress(r, r) && SameProgress(r, r.(expired := true))
  {
  }

  /** A step changes the worker of one request at most. */
  lemma NextHistory(actions: seq<Action>, a: Action, k: nat)
    requires Run(START, actions).Some? && Next(Run(START, actions).value, a).Some?
    requires k < |Run(START, actions).value.requests| && History(actions, k, Run(START, actions).value.requests[k])
    ensures k < |Next(Run(START, actions).value, a).value.requests|
    ensures History(actions + [a], k, Next(Run(START, actions).value, a).value.requests[k])
  {
    var s := Run(START, actions).value;
    var r := s.requests[k];
    hide History, Run, Work, StepAt, SameProgress;
    if a.WorkerStep? && a.k == k {
      LastStep(actions, k, r, a.choice);
      WorkHistory(actions, k, r, a.choice);
    } else {
      hide Next;
      OthersLeaveProgress(s, a, k);
      HistoryStays(actions, a, k, r, Next(s, a).value.requests[k]);
    }
  }

  lemma AcceptedHistory(actions: seq<Action>, k: nat, id: Text)
    ensures History(actions, k, NewRequest(id))
  {
  }

  lemma {:induction false} RunHistory(actions: seq<Action>, k: nat)
    requires Run(START, actions).Some? && k < |Run(START, actions).value.requests|
    ensures History(actions, k, Run(START, actions).value.requests[k])
  {
    hide History, Work, Watch, Cancel;
    if actions != [] {
      var front, a := actions[..|actions| - 1], actions[|actions| - 1];
      assert actions == front + [a];
      var s := Run(START, front).value;
      if k < |s.requests| {
        RunHistory(front, k);
        NextHistory(front, a, k);
      } else {
        AcceptedHistory(actions, k, a.id);
      }
    }
  }

  // ---- the promises ----

  /** Every answer has its reason in the run: the payload held no tool call; or the worker decided, and answers the
      cancellation or the deadline that it then saw, and else exactly what the tool said when it came back. */
  lemma AnswersAreExplained(actions: seq<Action>, k: nat)
    requires Run(START, actions).Some? && k < |Run(START, actions).value.requests|
    ensures var r := Run(START, actions).value.requests[k];
            r.responses != [] ==>
              || (r.responses == [Malformed] && ParseFailed(actions, k))
              || (|r.responses| == 1 && Decided(actions, k, r.responses[0]))
  {
    RunHistory(actions, k);
  }

  // ---- the same, forward ----

  predicate SaidKept(r: Request, said: Status) {
    || (PastTool(r.worker) && r.result == said && r.responses == [])
    || r.worker.Responding? || r.worker.Finishing? || r.worker.Gone?
  }

  predicate FinalKept(r: Request, status: Status) {
    || (r.worker.Responding? && r.result == status && r.responses == [])
    || ((r.worker.Finishing? || r.worker.Gone?) && r.responses == [status])
  }

  lemma WorkByCase(r: Request, choice: Choice)
    ensures AnswersNow(r.worker) || r.worker.Finishing? ==> Work(r, choice) == Answer(r)
    ensures PastTool(r.worker) && !AnswersNow(r.worker) ==> Work(r, choice) == Unbind(r, choice)
    ensures r.worker.Gone? ==> Work(r, choice).None?
  {
    hide Answer, Unbind, Begin, Bind, Refuse;
  }

  lemma WorkKeepsSaid(r: Request, choice: Choice, said: Status)
    requires SaidKept(r, said) && Work(r, choice).Some?
    ensures SaidKept(Work(r, choice).value, said)
  {
    WorkByCase(r, choice);
    hide Work, Answer, Unbind, Verdict;
    match r.worker
    case Completing => WaitingMoves(r);
    case Joining => WaitingMoves(r);
    case Deciding => DecidingMoves(r);
    case Responding => RespondingMoves(r);
    case Finishing => FinishingMoves(r);
    case Gone =>
    case _ => UnbindMoves(r, choice);
  }

  lemma WorkKeepsFinal(r: Request, choice: Choice, status: Status)
    requires FinalKept(r, status) && Work(r, choice).Some?
    ensures FinalKept(Work(r, choice).value, status)
  {
    WorkByCase(r, choice);
    hide Work, Answer;
    if r.worker.Responding? {
      RespondingMoves(r);
    } else if r.worker.Finishing? {
      FinishingMoves(r);
    }
  }

  lemma NextKeepsBoth(s: Server, a: Action, k: nat, said: Status)
    requires Next(s, a).Some? && k < |s.requests|
    ensures k < |Next(s, a).value.requests|
    ensures SaidKept(s.requests[k], said) ==> SaidKept(Next(s, a).value.requests[k], said)
    ensures FinalKept(s.requests[k], said) ==> FinalKept(Next(s, a).value.requests[k], said)
  {
    var r := s.requests[k];
    hide Work, Watch, Cancel, Live, SaidKept, FinalKept;
    if a.WorkerStep? && a.k == k {
      if SaidKept(r, said) {
        WorkKeepsSaid(r, a.choice, said);
      }
      if FinalKept(r, said) {
        WorkKeepsFinal(r, a.choice, said);
      }
    } else {
      OthersLeaveProgress(s, a, k);
      hide Next;
      SameProgressKeeps(r, Next(s, a).value.requests[k], said);
    }
  }

  lemma SameProgressKeeps(r: Request, t: Request, said: Status)
    requires SameProgress(r, t)
    ensures (SaidKept(r, said) ==> SaidKept(t, said)) && (FinalKept(r, said) ==> FinalKept(t, said))
  {
  }

  lemma {:induction false} RunKeepsBoth(s: Server, actions: seq<Action>, k: nat, said: Status)
    requires Run(s, actions).Some? && k < |s.requests|
    ensures k < |Run(s, actions).value.requests|
    ensures SaidKept(s.requests[k], said) ==> SaidKept(Run(s, actions).value.requests[k], said)
    ensures FinalKept(s.requests[k], said) ==> FinalKept(Run(s, actions).value.requests[k], said)
  {
    hide Next, SaidKept, FinalKept;
    if actions != [] {
      RunKeepsBoth(s, actions[..|actions| - 1], k, said);
      NextKeepsBoth(Run(s, actions[..|actions| - 1]).value, actions[|actions| - 1], k, said);
    }
  }

  lemma ToolStep(s: Server, k: nat, choice: Choice)
    requires Next(s, WorkerStep(k, choice)).Some? && k < |s.requests| && ToolEnds(s.requests[k], choice)
    requires s.requests[k].responses == []
    ensures var t := Next(s, WorkerStep(k, choice)).value.requests;
            k < |t| && ToolSays(s.requests[k], choice, t[k].result) && SaidKept(t[k], t[k].result)
  {
    hide Bind, Refuse, Answer;
  }

  lemma DecidingStep(s: Server, k: nat, choice: Choice)
    requires Next(s, WorkerStep(k, choice)).Some? && k < |s.requests| && s.requests[k].worker.Deciding?
    requires s.requests[k].responses == []
    ensures var t := Next(s, WorkerStep(k, choice)).value.requests;
            k < |t| && Verdict(s.requests[k], s.requests[k].result, t[k].result) && FinalKept(t[k], t[k].result)
  {
    hide Bind, Refuse, Begin, Unbind;
  }

  /** A request whose tool brought an outcome, and that nothing had stopped when it decided, answers that outcome; one
      that was stopped before its tool could begin answers the stop. */
  lemma UndisturbedAnswer(before: seq<Action>, choice: Choice, middle: seq<Action>, other: Choice, after: seq<Action>,
                          k: nat)
    requires Run(START, before).Some? && k < |Run(START, before).value.requests|
    requires ToolEnds(Run(START, before).value.requests[k], choice)
    requires Next(Run(START, before).value, WorkerStep(k, choice)).Some?
    requires var tool := Next(Run(START, before).value, WorkerStep(k, choice)).value;
             && Run(tool, middle).Some? && k < |Run(tool, middle).value.requests|
             && Run(tool, middle).value.requests[k].worker.Deciding?
             && Next(Run(tool, middle).value, WorkerStep(k, other)).Some?
             && Run(Next(Run(tool, middle).value, WorkerStep(k, other)).value, after).Some?
    ensures var calling := Run(START, before).value.requests[k];
            var deciding := Run(Next(Run(START, before).value, WorkerStep(k, choice)).value, middle).value;
            var end := Run(Next(deciding, WorkerStep(k, other)).value, after).value;
            && k < |end.requests|
            && (end.requests[k].responses != [] ==>
                  exists said :: ToolSays(calling, choice, said)
                                 && Verdict(deciding.requests[k], said, end.requests[k].responses[0]))
  {
    var s := Run(START, before).value;
    RunHistory(before, k);
    assert s.requests[k].responses == [];
    hide *;
    ToolStep(s, k, choice);
    var tool := Next(s, WorkerStep(k, choice)).value;
    var said := tool.requests[k].result;
    RunKeepsBoth(tool, middle, k, said);
    var deciding := Run(tool, middle).value;
    DecidingIsKept(deciding.requests[k], said);
    DecidingStep(deciding, k, other);
    var decided := Next(deciding, WorkerStep(k, other)).value;
    RunKeepsBoth(decided, after, k, decided.requests[k].result);
    FinalIsAnswered(Run(decided, after).value.requests[k], decided.requests[k].result);
  }

  lemma DecidingIsKept(r: Request, said: Status)
    requires r.worker.Deciding? && SaidKept(r, said)
    ensures r.result == said && r.responses == []
  {
  }

  lemma FinalIsAnswered(r: Request, status: Status)
    requires FinalKept(r, status)
    ensures r.responses != [] ==> r.responses[0] == status
  {
  }

  // ---- requests come in ----

  /** A reading server takes every request whose identifier is not in use: it is new, unanswered and not stopped. An
      identifier in use is refused, and nothing changes. */
  lemma AcceptTakes(actions: seq<Action>, id: Text)
    requires Run(START, actions).Some? && Run(START, actions).value.dispatcher.Reading?
    ensures var s := Run(START, actions).value;
            var inUse := exists k :: 0 <= k < |s.requests| && s.requests[k].id == id && !s.requests[k].worker.Gone?;
            && Next(s, Accept(id)).Some?
            && var t := Next(s, Accept(id)).value;
            && t.dispatcher.Reading?
            && (inUse ==> t == s)
            && (!inUse ==> && |t.requests| == |s.requests| + 1 && t.requests[..|s.requests|] == s.requests
                           && var r := t.requests[|s.requests|];
                           r.id == id && r.worker.Starting? && r.responses == [] && !StoppedNow(r)
                           && !r.cancelled && !r.timedOut && r.cancels == 0)
  {
    var s := Run(START, actions).value;
    hide Run;
    StartInv();
    RunKeeps(START, actions);
    hide RequestInv;
    if id in s.table {
      assert InTable(s, s.table[id]);
    } else {
      forall k | 0 <= k < |s.requests| && s.requests[k].id == id ensures s.requests[k].worker.Gone? {
        assert !InTable(s, k);
      }
    }
  }

  predicate ReadsOn(d: Dispatcher) {
    d.Reading? || (d.Cancelling? && !d.failed)
  }

  lemma NextReadsOn(s: Server, a: Action)
    requires Next(s, a).Some? && ReadsOn(s.dispatcher) && a != Fail && a != EndOfInput
    ensures ReadsOn(Next(s, a).value.dispatcher)
  {
    hide Work, Watch, Cancel, Live;
    match a
    case CancelStep =>
    case WorkerStep(_, _) =>
    case _ =>
  }

  /** Only the end of the input or a broken transport keeps the server from reading on; a cancellation does not. */
  lemma {:induction false} OnlyFailureCloses(actions: seq<Action>)
    requires Run(START, actions).Some? && Fail !in actions && EndOfInput !in actions
    ensures var d := Run(START, actions).value.dispatcher; d.Reading? || (d.Cancelling? && !d.failed)
  {
    hide Next;
    if actions != [] {
      var front, a := actions[..|actions| - 1], actions[|actions| - 1];
      assert actions == front + [a] && a in actions;
      OnlyFailureCloses(front);
      NextReadsOn(Run(START, front).value, a);
    }
  }
}
