/** The two mutexes never deadlock, and a closing server stops with every request answered. */
module CancellationProgress {
  import opened Wrappers
  import opened Index
  import opened Cancellation
  import opened CancellationSafety

  // ---- no deadlock ----

  /** A step of one of the threads, not of a client or of the clock. */
  predicate Internal(a: Action) {
    a.CancelStep? || a.Drained? || a.WorkerStep? || a.WatcherStep?
  }

  ghost predicate CanStep(s: Server) {
    exists a :: Internal(a) && Next(s, a).Some?
  }

  /** The worker waits for the mutex or for the deadline thread only. */
  lemma WorkWaits(r: Request, choice: Choice)
    requires !r.worker.Gone?
    requires (r.worker.Binding? || r.worker.Unbinding?) ==> r.mutex.Free?
    requires (r.worker.Joining? || r.worker.RefusedJoining?) ==> r.watcher.Returned?
    ensures Work(r, choice).Some?
  {
    hide ToolStatus, StoppedNow, StoppedStatus, Interrupt;
  }

  lemma WatchWaits(r: Request)
    ensures Watch(r).Some? <==> (r.watcher.Waiting? && (r.completed || r.expired))
                                || (r.watcher.TimedOut? && r.mutex.Free?)
                                || r.watcher.Holding? || r.watcher.Unlocking?
  {
    hide InterruptIfBound;
  }

  /** A request that no cancel() is inside can go on: whoever its worker waits for can. */
  lemma RequestCanStep(r: Request, choice: Choice)
    requires RequestInv(r) && !r.worker.Gone? && r.canceller.Out?
    ensures Work(r, choice).Some? || Watch(r).Some?
  {
    hide HandleInv, InterruptInv, AnswerInv, Work, Watch;
    WatchWaits(r);
    if !Watch(r).Some? {
      WorkWaits(r, choice);
    }
  }

  /** So can whoever keeps a cancel() from the mutex. */
  lemma HolderCanStep(r: Request, choice: Choice)
    requires RequestInv(r) && (r.mutex.ByWorker? || r.mutex.ByWatcher?)
    ensures (Work(r, choice).Some? && !r.worker.Finishing?) || Watch(r).Some?
  {
    hide HandleInv, InterruptInv, AnswerInv, DeadlineInv, Work, Watch;
    WatchWaits(r);
    if !Watch(r).Some? {
      WorkWaits(r, choice);
    }
  }

  lemma CancelWaits(r: Request)
    ensures Cancel(r).None? <==> r.canceller.Marked? && !r.mutex.Free?
  {
    hide InterruptIfBound;
  }

  const ANY := Choice(true, Success)

  lemma WorkerCanStep(s: Server, k: nat)
    requires k < |s.requests| && Work(s.requests[k], ANY).Some?
    requires s.requests[k].worker.Finishing? ==> !s.dispatcher.Cancelling?
    ensures CanStep(s)
  {
    hide Work;
    assert Next(s, WorkerStep(k, ANY)).Some?;
  }

  lemma WatcherCanStep(s: Server, k: nat)
    requires k < |s.requests| && Watch(s.requests[k]).Some?
    ensures CanStep(s)
  {
    hide Watch;
    assert Next(s, WatcherStep(k)).Some?;
  }

  lemma CancellingCanStep(s: Server)
    requires ServerInv(s) && s.dispatcher.Cancelling?
    ensures CanStep(s)
  {
    hide RequestInv, TableInv, ReuseInv, Work, Watch, Cancel, CanStep;
    if s.dispatcher.todo == [] {
      assert Next(s, CancelStep).Some?;
      StepIsStep(s, CancelStep);
    } else {
      var k := s.dispatcher.todo[0];
      var r := s.requests[k];
      CancelWaits(r);
      if Cancel(r).Some? {
        assert Next(s, CancelStep).Some?;
        StepIsStep(s, CancelStep);
      } else {
        HeldByOthers(r);
        HolderCanStep(r, ANY);
        if Watch(r).Some? {
          WatcherCanStep(s, k);
        } else {
          WorkerCanStep(s, k);
        }
      }
    }
  }

  lemma StepIsStep(s: Server, a: Action)
    requires Internal(a) && Next(s, a).Some?
    ensures CanStep(s)
  {
  }

  lemma HeldByOthers(r: Request)
    requires RequestInv(r) && r.canceller.Marked? && !r.mutex.Free?
    ensures r.mutex.ByWorker? || r.mutex.ByWatcher?
  {
  }

  /** As long as a request is unfinished, a cancel() is under way or the server is waiting to stop, some thread can
      take a step. */
  lemma NeverStuck(actions: seq<Action>)
    requires Run(START, actions).Some?
    ensures var s := Run(START, actions).value;
            s.dispatcher.Cancelling? || s.dispatcher.Draining? || s.table != map[] ==> CanStep(s)
  {
    hide Run, ServerInv;
    var s := Run(START, actions).value;
    StartInv();
    RunKeeps(START, actions);
    if s.dispatcher.Cancelling? || s.dispatcher.Draining? || s.table != map[] {
      StateCanStep(s);
    }
  }

  lemma StateCanStep(s: Server)
    requires ServerInv(s) && (s.dispatcher.Cancelling? || s.dispatcher.Draining? || s.table != map[])
    ensures CanStep(s)
  {
    hide RequestInv, Work, Watch, Cancel, CanStep, ReuseInv;
    if s.dispatcher.Cancelling? {
      CancellingCanStep(s);
    } else if s.table == map[] {
      assert Next(s, Drained).Some?;
      StepIsStep(s, Drained);
    } else {
      var id :| id in s.table;
      var k := s.table[id];
      RequestCanStep(s.requests[k], ANY);
      if Watch(s.requests[k]).Some? {
        WatcherCanStep(s, k);
      } else {
        WorkerCanStep(s, k);
      }
    }
  }

  // ---- no endless shutdown ----

  /** The steps that the worker has left at most. */
  function WorkerRank(w: Worker): nat {
    match w
    case Starting => 19
    case Parsing => 18
    case Calling => 17
    case Binding => 16
    case BindLocked => 15
    case BindStored => 14
    case BindChecked => 13
    case BindInterrupting => 12
    case BindUnlocking => 11
    case Running => 10
    case Unbinding => 9
    case UnbindLocked => 8
    case UnbindCleared => 7
    case Closing => 6
    case Completing => 5
    case Joining => 4
    case Deciding => 3
    case Responding => 2
    case Refusing => 4
    case RefusedCompleting => 3
    case RefusedJoining => 2
    case Finishing => 1
    case Gone => 0
  }

  function WatcherRank(w: Watcher): nat {
    match w
    case NotStarted => 5
    case Waiting => 4
    case TimedOut => 3
    case Holding => 2
    case Unlocking => 1
    case Returned => 0
  }

  function RequestRank(r: Request): nat {
    WorkerRank(r.worker) + WatcherRank(r.watcher) + if r.expired then 0 else 1
  }

  function CancellerDone(c: Canceller): nat {
    match c
    case Out => 0
    case Marked => 1
    case Locked => 2
    case Unlocked => 3
  }

  function Total(requests: seq<Request>): nat {
    if requests == [] then 0 else Total(requests[..|requests| - 1]) + RequestRank(requests[|requests| - 1])
  }

  function DispatcherRank(s: Server): int {
    match s.dispatcher
    case Stopped => 0
    case Draining => 1
    case Cancelling(todo, _) =>
      2 + 4 * |todo|
      - if todo != [] && todo[0] < |s.requests| then CancellerDone(s.requests[todo[0]].canceller) else 0
    case Reading => 0
  }

  function Rank(s: Server): int {
    Total(s.requests) + DispatcherRank(s)
  }

  /** The server reads no more messages. */
  predicate Closing(s: Server) {
    s.dispatcher.Draining? || s.dispatcher.Stopped? || (s.dispatcher.Cancelling? && s.dispatcher.failed)
  }

  lemma {:induction false} TotalReplace(requests: seq<Request>, k: nat, r: Request)
    requires k < |requests|
    ensures Total(requests[k := r]) == Total(requests) - RequestRank(requests[k]) + RequestRank(r)
  {
    hide RequestRank;
    var n := |requests| - 1;
    if k == n {
      assert requests[k := r][..n] == requests[..n];
    } else {
      assert requests[k := r][..n] == requests[..n][k := r];
      TotalReplace(requests[..n], k, r);
    }
  }

  lemma BeginRank(r: Request, choice: Choice)
    requires r.worker.Starting? ==> r.watcher.NotStarted?
    requires r.worker.Starting? || r.worker.Parsing?
    requires Begin(r, choice).Some?
    ensures RequestRank(Begin(r, choice).value) < RequestRank(r)
  {
  }

  lemma CallRank(r: Request, choice: Choice)
    requires r.worker.Calling? && Begin(r, choice).Some?
    ensures RequestRank(Begin(r, choice).value) < RequestRank(r)
  {
  }

  lemma RefuseRank(r: Request)
    requires r.worker.Refusing? || r.worker.RefusedCompleting? || r.worker.RefusedJoining?
    requires Refuse(r).Some?
    ensures RequestRank(Refuse(r).value) < RequestRank(r)
  {
    hide ToolStatus, StoppedNow, StoppedStatus;
  }

  lemma BindRank(r: Request)
    requires r.worker.Binding? || r.worker.BindLocked? || r.worker.BindStored?
    requires Bind(r).Some?
    ensures RequestRank(Bind(r).value) < RequestRank(r)
  {
    hide ToolStatus, StoppedNow, StoppedStatus;
  }

  lemma BindEndRank(r: Request)
    requires r.worker.BindChecked? || r.worker.BindInterrupting? || r.worker.BindUnlocking?
    requires Bind(r).Some?
    ensures RequestRank(Bind(r).value) < RequestRank(r)
  {
    hide ToolStatus, StoppedNow, StoppedStatus;
  }

  lemma UnbindRank(r: Request, choice: Choice)
    requires r.worker.Running? || r.worker.Unbinding? || r.worker.UnbindLocked? ||
             r.worker.UnbindCleared? || r.worker.Closing?
    requires Unbind(r, choice).Some?
    ensures RequestRank(Unbind(r, choice).value) < RequestRank(r)
  {
    hide ToolStatus, StoppedNow, StoppedStatus;
  }

  lemma AnswerRank(r: Request)
    requires r.worker.Completing? || r.worker.Joining? || r.worker.Deciding? ||
             r.worker.Responding? || r.worker.Finishing?
    requires Answer(r).Some?
    ensures RequestRank(Answer(r).value) < RequestRank(r)
  {
    hide ToolStatus, StoppedNow, StoppedStatus;
  }

  lemma WorkRank(r: Request, choice: Choice)
    requires DeadlineInv(r) && Work(r, choice).Some?
    ensures RequestRank(Work(r, choice).value) < RequestRank(r)
  {
    assert r.worker.Starting? ==> r.watcher.NotStarted?;
    hide DeadlineInv, RequestRank, Begin, Refuse, Bind, Unbind, Answer;
    if r.worker.Starting? || r.worker.Parsing? {
      BeginRank(r, choice);
    } else if r.worker.Calling? {
      CallRank(r, choice);
    } else if r.worker.Refusing? || r.worker.RefusedCompleting? || r.worker.RefusedJoining? {
      RefuseRank(r);
    } else if r.worker.Binding? || r.worker.BindLocked? || r.worker.BindStored? {
      BindRank(r);
    } else if r.worker.BindChecked? || r.worker.BindInterrupting? || r.worker.BindUnlocking? {
      BindEndRank(r);
    } else if r.worker.Running? || r.worker.Unbinding? || r.worker.UnbindLocked? || r.worker.UnbindCleared?
              || r.worker.Closing? {
      UnbindRank(r, choice);
    } else {
      AnswerRank(r);
    }
  }

  predicate WatchRanked(r: Request, t: Request) {
    RequestRank(t) < RequestRank(r) && t.canceller == r.canceller
  }

  lemma WatchFirstRank(r: Request)
    requires (r.watcher.Waiting? || r.watcher.TimedOut?) && Watch(r).Some?
    ensures WatchRanked(r, Watch(r).value)
  {
  }

  lemma WatchLastRank(r: Request)
    requires (r.watcher.Holding? || r.watcher.Unlocking?) && Watch(r).Some?
    ensures WatchRanked(r, Watch(r).value)
  {
  }

  lemma WatchRank(r: Request)
    requires Watch(r).Some?
    ensures WatchRanked(r, Watch(r).value)
  {
    hide WatchRanked;
    if r.watcher.Waiting? || r.watcher.TimedOut? {
      WatchFirstRank(r);
    } else {
      WatchLastRank(r);
    }
  }

  predicate CancelRanked(r: Request, t: Request) {
    && RequestRank(t) == RequestRank(r)
    && if t.canceller.Out? then CancellerDone(r.canceller) == 3
       else CancellerDone(t.canceller) == CancellerDone(r.canceller) + 1
  }

  lemma CancelFirstRank(r: Request)
    requires (r.canceller.Out? || r.canceller.Marked?) && Cancel(r).Some?
    ensures CancelRanked(r, Cancel(r).value)
  {
  }

  lemma CancelLastRank(r: Request)
    requires (r.canceller.Locked? || r.canceller.Unlocked?) && Cancel(r).Some?
    ensures CancelRanked(r, Cancel(r).value)
  {
  }

  lemma CancelRank(r: Request)
    requires Cancel(r).Some?
    ensures CancelRanked(r, Cancel(r).value)
  {
    hide CancelRanked;
    if r.canceller.Out? || r.canceller.Marked? {
      CancelFirstRank(r);
    } else {
      CancelLastRank(r);
    }
  }

  lemma ThreadRank(s: Server, a: Action)
    requires ServerInv(s) && Next(s, a).Some? && (a.WorkerStep? || a.WatcherStep? || a.Tick?)
    ensures Rank(Next(s, a).value) < Rank(s) && Next(s, a).value.dispatcher == s.dispatcher
  {
    hide Work, Watch, TableInv, DispatcherInv, ReuseInv, Safe, AnswerInv, DeadlineInv, StillKept;
    var r := s.requests[a.k];
    assert RequestInv(r);
    match a
    case WorkerStep(k, choice) =>
      WorkKeeps(r, choice);
      WorkRank(r, choice);
      hide RequestRank, RequestInv;
      TotalReplace(s.requests, k, Work(r, choice).value);
    case WatcherStep(k) =>
      WatchRank(r);
      hide RequestRank, RequestInv;
      TotalReplace(s.requests, k, Watch(r).value);
    case Tick(k) =>
      TotalReplace(s.requests, k, r.(expired := true));
  }

  lemma CancelActionRank(s: Server)
    requires ServerInv(s) && Next(s, CancelStep).Some? && s.dispatcher.failed
    ensures Rank(Next(s, CancelStep).value) < Rank(s) && Closing(Next(s, CancelStep).value)
  {
    hide Cancel, TableInv, ReuseInv, RequestsInv, RequestRank;
    if s.dispatcher.todo != [] {
      var k := s.dispatcher.todo[0];
      CancelRank(s.requests[k]);
      var r := Cancel(s.requests[k]).value;
      TotalReplace(s.requests, k, r);
      assert |s.dispatcher.todo[1..]| == |s.dispatcher.todo| - 1;
    }
  }

  lemma CloseRank(s: Server, a: Action)
    requires ServerInv(s) && Closing(s) && Next(s, a).Some?
    ensures Closing(Next(s, a).value) && Rank(Next(s, a).value) < Rank(s)
  {
    hide ServerInv, Total;
    match a
    case CancelStep => CancelActionRank(s);
    case WorkerStep(_, _) => ThreadRank(s, a);
    case WatcherStep(_) => ThreadRank(s, a);
    case Tick(_) => ThreadRank(s, a);
    case _ =>
  }

  lemma RankIsNatural(s: Server)
    ensures Rank(s) >= 0
  {
  }

  lemma {:induction false} ShutdownIsBounded(s: Server, actions: seq<Action>)
    requires ServerInv(s) && Closing(s) && Run(s, actions).Some?
    ensures Closing(Run(s, actions).value) && |actions| + Rank(Run(s, actions).value) <= Rank(s)
  {
    hide ServerInv, Rank, Next, Closing;
    if actions != [] {
      var front := actions[..|actions| - 1];
      ShutdownIsBounded(s, front);
      RunKeeps(s, front);
      CloseRank(Run(s, front).value, actions[|actions| - 1]);
    }
  }

  /** Once the server reads no more messages, every run is finite, and one that cannot go on has stopped the server
      with an empty table and every request ever accepted answered exactly once. */
  lemma ShutdownCompletes(actions: seq<Action>, more: seq<Action>)
    requires Run(START, actions).Some? && Closing(Run(START, actions).value)
    requires Run(Run(START, actions).value, more).Some?
    ensures |more| <= Rank(Run(START, actions).value)
    ensures var end := Run(Run(START, actions).value, more).value;
            !CanStep(end) ==>
              && end.dispatcher.Stopped? && end.table == map[]
              && forall r | r in end.requests :: |r.responses| == 1 && r.worker.Gone?
  {
    hide Run, Rank, ServerInv, CanStep;
    var s := Run(START, actions).value;
    StartInv();
    RunKeeps(START, actions);
    ShutdownIsBounded(s, more);
    RunKeeps(s, more);
    var end := Run(s, more).value;
    RankIsNatural(end);
    if !CanStep(end) {
      if end.dispatcher.Cancelling? || end.dispatcher.Draining? || end.table != map[] {
        StateCanStep(end);
      }
      AllAnswered(end);
    }
  }

  lemma AllAnswered(s: Server)
    requires ServerInv(s) && s.table == map[]
    ensures forall r | r in s.requests :: |r.responses| == 1 && r.worker.Gone?
  {
    forall r | r in s.requests ensures |r.responses| == 1 && r.worker.Gone? {
      var k :| 0 <= k < |s.requests| && s.requests[k] == r;
      assert RequestInv(s.requests[k]) && !InTable(s, k);
    }
  }
}
