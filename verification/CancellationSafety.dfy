/** Safety of cancellation in every interleaving. */
module CancellationSafety {
  import opened Wrappers
  import opened Index
  import opened Cancellation

  // ---- one request ----

  predicate WorkerHolds(w: Worker) {
    w.BindLocked? || w.BindStored? || w.BindChecked? || w.BindInterrupting? || w.BindUnlocking? ||
    w.UnbindLocked? || w.UnbindCleared?
  }

  predicate HandleOpen(w: Worker) {
    w.Binding? || w.BindLocked? || w.BindStored? || w.BindChecked? || w.BindInterrupting? ||
    w.BindUnlocking? || w.Running? || w.Unbinding? || w.UnbindLocked? || w.UnbindCleared? || w.Closing?
  }

  predicate IsBound(w: Worker) {
    w.BindStored? || w.BindChecked? || w.BindInterrupting? || w.BindUnlocking? || w.Running? ||
    w.Unbinding? || w.UnbindLocked?
  }

  /** bind() has looked at every flag. */
  predicate BindDone(w: Worker) {
    w.BindUnlocking? || w.Running? || w.Unbinding? || w.UnbindLocked?
  }

  predicate Answered(w: Worker) {
    w.RefusedCompleting? || w.RefusedJoining? || w.Finishing? || w.Gone?
  }

  predicate Joined(w: Worker) {
    w.Deciding? || w.Responding? || w.Finishing? || w.Gone?
  }

  predicate IsCompleted(w: Worker) {
    w.RefusedJoining? || w.Joining? || Joined(w)
  }

  predicate MutexInv(r: Request) {
    && (r.mutex.ByWorker? <==> WorkerHolds(r.worker))
    && (r.mutex.ByWatcher? <==> r.watcher.Holding? || r.watcher.Unlocking?)
    && (r.mutex.ByDispatcher? <==> r.canceller.Locked? || r.canceller.Unlocked?)
  }

  predicate HandleInv(r: Request) {
    && !r.misfired
    && (r.handle.Open? <==> HandleOpen(r.worker))
    && (r.bound <==> IsBound(r.worker))
  }

  /** Each flag that is set has interrupted the handle, or the thread that set it still will. */
  predicate InterruptInv(r: Request) {
    && (r.worker.BindChecked? ==> r.cancels == 0 && (r.cancelled ==> r.canceller.Marked?))
    && (BindDone(r.worker) && (r.cancels > 0 || r.canceller.Unlocked?) ==> r.interrupted)
    && (BindDone(r.worker) && r.timedOut && (r.watcher.Unlocking? || r.watcher.Returned?) ==> r.interrupted)
    && (BindDone(r.worker) && r.cancelled ==> r.interrupted || r.canceller.Marked? || r.canceller.Locked?)
    && (BindDone(r.worker) && r.timedOut ==>
          r.interrupted || r.watcher.TimedOut? || r.watcher.Holding?)
  }

  predicate DeadlineInv(r: Request) {
    && (r.worker.Starting? <==> r.watcher.NotStarted?)
    && (r.watcher.NotStarted? || r.watcher.Waiting? ==> !r.timedOut)
    && (r.watcher.TimedOut? || r.watcher.Holding? || r.watcher.Unlocking? ==> r.timedOut)
    && (r.watcher.Returned? ==> r.timedOut || r.completed)
    && (r.timedOut ==> r.expired)
    && (r.completed <==> IsCompleted(r.worker))
    && (Joined(r.worker) ==> r.watcher.Returned?)
    && (!r.canceller.Out? || r.cancels > 0 ==> r.cancelled)
  }

  predicate HonestStatus(r: Request, status: Status) {
    && (status.Cancelled? ==> r.cancelled)
    && (status.DeadlineExceeded? ==> r.expired)
  }

  predicate AnswerInv(r: Request) {
    && |r.responses| == (if Answered(r.worker) then 1 else 0)
    && HonestStatus(r, r.result)
    && (r.responses != [] ==> HonestStatus(r, r.responses[0]))
  }

  predicate Safe(r: Request) {
    MutexInv(r) && HandleInv(r) && InterruptInv(r)
  }

  predicate RequestInv(r: Request) {
    Safe(r) && DeadlineInv(r) && AnswerInv(r)
  }

  /** The answer has not been decided yet, or reports the stop. A payload without a tool call is refused either way. */
  predicate MustReport(r: Request, timeout: bool) {
    && (r.cancelled || (timeout && r.timedOut))
    && (r.worker.Responding? ==> Reports(r.result, timeout))
    && (r.responses != [] ==> Reports(r.responses[0], timeout) || r.responses[0].Malformed?)
  }

  predicate Reports(status: Status, timeout: bool) {
    status.Cancelled? || (timeout && status.DeadlineExceeded?)
  }

  /** A stop that bind() could see has interrupted the handle by the time that bind() is done. */
  predicate SeenByBind(r: Request) {
    (r.expired || (r.cancelled && !r.worker.BindChecked?)) && (BindDone(r.worker) ==> r.interrupted)
  }

  /** Stopped before the database was opened. */
  predicate NeverOpened(r: Request) {
    StoppedNow(r) && r.handle.Unopened?
  }

  predicate InTime(r: Request) {
    r.completed && !r.timedOut
  }

  /** What stays true of a request once it is. */
  datatype Promise = ReportsCancel | ReportsStop | BindSees | StaysUnopened | StaysInTime

  predicate Kept(promise: Promise, r: Request) {
    match promise
    case ReportsCancel => MustReport(r, false)
    case ReportsStop => MustReport(r, true)
    case BindSees => SeenByBind(r)
    case StaysUnopened => NeverOpened(r)
    case StaysInTime => InTime(r)
  }

  predicate StillKept(r: Request, t: Request) {
    && (MustReport(r, false) ==> MustReport(t, false)) && (MustReport(r, true) ==> MustReport(t, true))
    && (SeenByBind(r) ==> SeenByBind(t)) && (NeverOpened(r) ==> NeverOpened(t)) && (InTime(r) ==> InTime(t))
  }

  predicate WorkerMoved(r: Request, t: Request) {
    && t.id == r.id && t.canceller == r.canceller && !r.worker.Gone? && (t.worker.Gone? <==> r.worker.Finishing?)
    && t.cancels == r.cancels && StillKept(r, t)
  }

  predicate WorkerKept(r: Request, t: Request) {
    t.id == r.id && t.worker == r.worker && t.cancels >= r.cancels && StillKept(r, t)
  }

  lemma BeginKeeps(r: Request, choice: Choice)
    requires RequestInv(r) && (r.worker.Starting? || r.worker.Parsing? || r.worker.Calling?) && Begin(r, choice).Some?
    ensures RequestInv(Begin(r, choice).value) && WorkerMoved(r, Begin(r, choice).value)
  {
  }

  lemma RefuseKeeps(r: Request)
    requires RequestInv(r) && (r.worker.Refusing? || r.worker.RefusedCompleting? || r.worker.RefusedJoining?)
    requires Refuse(r).Some?
    ensures RequestInv(Refuse(r).value) && WorkerMoved(r, Refuse(r).value)
  {
  }

  lemma BindKeeps(r: Request)
    requires RequestInv(r) && (r.worker.Binding? || r.worker.BindLocked? || r.worker.BindStored?) && Bind(r).Some?
    ensures RequestInv(Bind(r).value) && WorkerMoved(r, Bind(r).value)
  {
  }

  lemma BindEndKeeps(r: Request)
    requires RequestInv(r) && (r.worker.BindChecked? || r.worker.BindInterrupting? || r.worker.BindUnlocking?)
    requires Bind(r).Some?
    ensures RequestInv(Bind(r).value) && WorkerMoved(r, Bind(r).value)
  {
  }

  lemma UnbindKeeps(r: Request, choice: Choice)
    requires RequestInv(r) && (r.worker.Running? || r.worker.Unbinding? || r.worker.UnbindLocked?)
    requires Unbind(r, choice).Some?
    ensures RequestInv(Unbind(r, choice).value) && WorkerMoved(r, Unbind(r, choice).value)
  {
  }

  lemma UnbindEndKeeps(r: Request, choice: Choice)
    requires RequestInv(r) && (r.worker.UnbindCleared? || r.worker.Closing?) && Unbind(r, choice).Some?
    ensures RequestInv(Unbind(r, choice).value) && WorkerMoved(r, Unbind(r, choice).value)
  {
  }

  lemma AnswerKeeps(r: Request)
    requires RequestInv(r) && (r.worker.Completing? || r.worker.Joining? || r.worker.Deciding?) && Answer(r).Some?
    ensures RequestInv(Answer(r).value) && WorkerMoved(r, Answer(r).value)
  {
  }

  lemma AnswerEndKeeps(r: Request)
    requires RequestInv(r) && (r.worker.Responding? || r.worker.Finishing?) && Answer(r).Some?
    ensures RequestInv(Answer(r).value) && WorkerMoved(r, Answer(r).value)
  {
  }

  lemma WorkKeeps(r: Request, choice: Choice)
    requires RequestInv(r) && Work(r, choice).Some?
    ensures RequestInv(Work(r, choice).value) && WorkerMoved(r, Work(r, choice).value)
  {
    hide RequestInv, WorkerMoved, Begin, Refuse, Bind, Unbind, Answer;
    match r.worker
    case Starting => BeginKeeps(r, choice);
    case Parsing => BeginKeeps(r, choice);
    case Calling => BeginKeeps(r, choice);
    case Refusing => RefuseKeeps(r);
    case RefusedCompleting => RefuseKeeps(r);
    case RefusedJoining => RefuseKeeps(r);
    case Binding => BindKeeps(r);
    case BindLocked => BindKeeps(r);
    case BindStored => BindKeeps(r);
    case BindChecked => BindEndKeeps(r);
    case BindInterrupting => BindEndKeeps(r);
    case BindUnlocking => BindEndKeeps(r);
    case Running => UnbindKeeps(r, choice);
    case Unbinding => UnbindKeeps(r, choice);
    case UnbindLocked => UnbindKeeps(r, choice);
    case UnbindCleared => UnbindEndKeeps(r, choice);
    case Closing => UnbindEndKeeps(r, choice);
    case Completing => AnswerKeeps(r);
    case Joining => AnswerKeeps(r);
    case Deciding => AnswerKeeps(r);
    case Responding => AnswerEndKeeps(r);
    case Finishing => AnswerEndKeeps(r);
    case Gone =>
  }

  lemma WatchKeeps(r: Request)
    requires RequestInv(r) && (r.watcher.Waiting? || r.watcher.TimedOut?) && Watch(r).Some?
    ensures RequestInv(Watch(r).value) && WorkerKept(r, Watch(r).value) && Watch(r).value.canceller == r.canceller
  {
  }

  lemma WatchEndKeeps(r: Request)
    requires RequestInv(r) && (r.watcher.Holding? || r.watcher.Unlocking?) && Watch(r).Some?
    ensures RequestInv(Watch(r).value) && WorkerKept(r, Watch(r).value) && Watch(r).value.canceller == r.canceller
  {
  }

  lemma CancelKeeps(r: Request)
    requires RequestInv(r) && (r.canceller.Out? || r.canceller.Marked?) && Cancel(r).Some?
    ensures RequestInv(Cancel(r).value) && WorkerKept(r, Cancel(r).value)
            && (Cancel(r).value.canceller.Out? ==> Cancel(r).value.cancels > 0)
  {
  }

  lemma CancelEndKeeps(r: Request)
    requires RequestInv(r) && (r.canceller.Locked? || r.canceller.Unlocked?) && Cancel(r).Some?
    ensures RequestInv(Cancel(r).value) && WorkerKept(r, Cancel(r).value)
            && (Cancel(r).value.canceller.Out? ==> Cancel(r).value.cancels > 0)
  {
  }
  lemma WatchStepKeeps(r: Request)
    requires RequestInv(r) && Watch(r).Some?
    ensures RequestInv(Watch(r).value) && WorkerKept(r, Watch(r).value) && Watch(r).value.canceller == r.canceller
  {
    hide RequestInv;
    if r.watcher.Waiting? || r.watcher.TimedOut? {
      WatchKeeps(r);
    } else {
      WatchEndKeeps(r);
    }
  }

  lemma CancelStepKeeps(r: Request)
    requires RequestInv(r) && Cancel(r).Some?
    ensures RequestInv(Cancel(r).value) && WorkerKept(r, Cancel(r).value)
            && (Cancel(r).value.canceller.Out? ==> Cancel(r).value.cancels > 0)
  {
    hide RequestInv;
    if r.canceller.Out? || r.canceller.Marked? {
      CancelKeeps(r);
    } else {
      CancelEndKeeps(r);
    }
  }

  lemma TickKeeps(r: Request)
    requires RequestInv(r)
    ensures RequestInv(r.(expired := true))
  {
  }

  lemma NewKeeps(id: Text)
    ensures RequestInv(NewRequest(id))
  {
  }

  // ---- the server ----

  ghost predicate RequestsInv(s: Server) {
    forall k | 0 <= k < |s.requests| :: RequestInv(s.requests[k])
  }

  ghost predicate TableInv(s: Server) {
    && (forall id | id in s.table :: s.table[id] < |s.requests| && s.requests[s.table[id]].id == id)
    && (forall k | 0 <= k < |s.requests| :: !s.requests[k].worker.Gone? <==> InTable(s, k))
  }

  predicate InTable(s: Server, k: nat)
    requires k < |s.requests|
  {
    s.requests[k].id in s.table && s.table[s.requests[k].id] == k
  }

  /** Only one cancel() runs at a time, for a request that is still in the table. */
  ghost predicate DispatcherInv(s: Server) {
    && (forall k | 0 <= k < |s.requests| && !s.requests[k].canceller.Out? ::
          s.dispatcher.Cancelling? && s.dispatcher.todo != [] && s.dispatcher.todo[0] == k)
    && (s.dispatcher.Cancelling? ==>
          forall j | 0 <= j < |s.dispatcher.todo| ::
            s.dispatcher.todo[j] < |s.requests| && !s.requests[s.dispatcher.todo[j]].worker.Gone?)
  }

  /** An identifier is used again only once its earlier request is gone. */
  ghost predicate ReuseInv(s: Server) {
    forall j, k | 0 <= j < k < |s.requests| && s.requests[j].id == s.requests[k].id :: s.requests[j].worker.Gone?
  }

  ghost predicate ServerInv(s: Server) {
    RequestsInv(s) && TableInv(s) && DispatcherInv(s) && ReuseInv(s)
  }

  lemma StartInv()
    ensures ServerInv(START)
  {
  }

  lemma AcceptKeeps(s: Server, id: Text)
    requires ServerInv(s) && Next(s, Accept(id)).Some?
    ensures ServerInv(Next(s, Accept(id)).value)
  {
    hide RequestInv;
    NewKeeps(id);
  }

  lemma {:induction false} LiveOnes(requests: seq<Request>)
    ensures forall j | 0 <= j < |Live(requests)| ::
              Live(requests)[j] < |requests| && !requests[Live(requests)[j]].worker.Gone?
    ensures forall k | 0 <= k < |requests| && !requests[k].worker.Gone? :: k in Live(requests)
  {
    if requests != [] {
      LiveOnes(requests[..|requests| - 1]);
    }
  }

  lemma DispatchKeeps(s: Server, a: Action)
    requires ServerInv(s) && Next(s, a).Some? && (a.Notify? || a.Fail? || a.EndOfInput? || a.Drained?)
    ensures ServerInv(Next(s, a).value)
  {
    hide RequestInv, Live;
    LiveOnes(s.requests);
  }

  /** A step of one request that leaves its identifier, its canceller and its table entry alone. */
  lemma ReplaceKeeps(s: Server, k: nat, r: Request)
    requires ServerInv(s) && k < |s.requests| && RequestInv(r)
    requires var before := s.requests[k];
             r.id == before.id && r.canceller == before.canceller && (r.worker.Gone? <==> before.worker.Gone?)
    ensures ServerInv(Replace(s, k, r))
  {
    hide RequestInv;
  }

  /** The last step of a request removes it from the table; the dispatcher is not inside a cancel() then. */
  lemma FinishKeeps(s: Server, k: nat, r: Request)
    requires ServerInv(s) && k < |s.requests| && !s.dispatcher.Cancelling? && RequestInv(r)
    requires r.id == s.requests[k].id && r.canceller == s.requests[k].canceller
    requires r.worker.Gone? && !s.requests[k].worker.Gone?
    ensures ServerInv(Replace(s, k, r).(table := s.table - {r.id}))
  {
    hide RequestInv;
  }

  lemma CancelHeadKeeps(s: Server, r: Request)
    requires ServerInv(s) && s.dispatcher.Cancelling? && s.dispatcher.todo != []
    requires s.dispatcher.todo[0] < |s.requests|
    requires RequestInv(r) && r.id == s.requests[s.dispatcher.todo[0]].id
    requires r.worker == s.requests[s.dispatcher.todo[0]].worker
    ensures ServerInv(Replace(s, s.dispatcher.todo[0], r).(
                        dispatcher := if r.canceller.Out? then s.dispatcher.(todo := s.dispatcher.todo[1..])
                                      else s.dispatcher))
  {
    hide RequestInv;
  }

  lemma CancelActionKeeps(s: Server)
    requires ServerInv(s) && Next(s, CancelStep).Some?
    ensures ServerInv(Next(s, CancelStep).value)
  {
    hide RequestInv, Cancel;
    if s.dispatcher.todo != [] {
      var k := s.dispatcher.todo[0];
      CancelStepKeeps(s.requests[k]);
      CancelHeadKeeps(s, Cancel(s.requests[k]).value);
      hide *;
    }
  }

  lemma ThreadKeeps(s: Server, a: Action)
    requires ServerInv(s) && Next(s, a).Some? && (a.WorkerStep? || a.WatcherStep? || a.Tick?)
    ensures ServerInv(Next(s, a).value)
  {
    hide RequestInv, Work, Watch, TableInv, DispatcherInv, ReuseInv;
    assert RequestInv(s.requests[a.k]);
    match a
    case WorkerStep(k, choice) =>
      var r := Work(s.requests[k], choice).value;
      WorkKeeps(s.requests[k], choice);
      if r.worker.Gone? {
        FinishKeeps(s, k, r);
      } else {
        ReplaceKeeps(s, k, r);
      }
    case WatcherStep(k) =>
      WatchStepKeeps(s.requests[k]);
      ReplaceKeeps(s, k, Watch(s.requests[k]).value);
    case Tick(k) =>
      TickKeeps(s.requests[k]);
      ReplaceKeeps(s, k, s.requests[k].(expired := true));
  }

  lemma NextKeeps(s: Server, a: Action)
    requires ServerInv(s) && Next(s, a).Some?
    ensures ServerInv(Next(s, a).value)
  {
    hide ServerInv, Next;
    match a
    case Accept(id) => AcceptKeeps(s, id);
    case Notify(_) => DispatchKeeps(s, a);
    case Fail => DispatchKeeps(s, a);
    case EndOfInput => DispatchKeeps(s, a);
    case Drained => DispatchKeeps(s, a);
    case CancelStep => CancelActionKeeps(s);
    case WorkerStep(_, _) => ThreadKeeps(s, a);
    case WatcherStep(_) => ThreadKeeps(s, a);
    case Tick(_) => ThreadKeeps(s, a);
  }

  lemma {:induction false} RunKeeps(s: Server, actions: seq<Action>)
    requires ServerInv(s) && Run(s, actions).Some?
    ensures ServerInv(Run(s, actions).value)
  {
    hide ServerInv, Next;
    if actions != [] {
      RunKeeps(s, actions[..|actions| - 1]);
      NextKeeps(Run(s, actions[..|actions| - 1]).value, actions[|actions| - 1]);
    }
  }

  // ---- the promises ----

  /** No interrupt ever reaches a handle that is not open, and from the end of bind() until the handle is unbound it
      has been interrupted whenever a cancel() or the deadline thread has already returned. */
  lemma InterruptsAreSafe(actions: seq<Action>, k: nat)
    requires Run(START, actions).Some? && k < |Run(START, actions).value.requests|
    ensures var r := Run(START, actions).value.requests[k];
            && !r.misfired
            && (r.bound ==> r.handle.Open?)
            && (BindDone(r.worker) && r.cancels > 0 ==> r.interrupted)
            && (BindDone(r.worker) && r.timedOut && r.watcher.Returned? ==> r.interrupted)
  {
    hide Run;
    StartInv();
    RunKeeps(START, actions);
    assert RequestInv(Run(START, actions).value.requests[k]);
  }

  /** A request is answered at most once, leaves the table only answered, and shares its identifier with no other
      request in progress. */
  lemma AnsweredExactlyOnce(actions: seq<Action>, k: nat)
    requires Run(START, actions).Some? && k < |Run(START, actions).value.requests|
    ensures var s := Run(START, actions).value;
            var r := s.requests[k];
            && |r.responses| <= 1
            && (!InTable(s, k) ==> |r.responses| == 1)
            && (InTable(s, k) <==> !r.worker.Gone?)
            && forall j | 0 <= j < |s.requests| && j != k && s.requests[j].id == r.id ::
                 s.requests[j].worker.Gone? || r.worker.Gone?
  {
    hide Run;
    StartInv();
    RunKeeps(START, actions);
    assert RequestInv(Run(START, actions).value.requests[k]);
  }

  /** The deadline thread has returned before its request leaves the table, and no cancel() is inside a request that
      is gone, so the control outlives every use. */
  lemma ControlOutlivesItsUsers(actions: seq<Action>, k: nat)
    requires Run(START, actions).Some? && k < |Run(START, actions).value.requests|
    requires Run(START, actions).value.requests[k].worker.Gone?
    ensures var r := Run(START, actions).value.requests[k];
            r.watcher.Returned? && r.canceller.Out? && r.mutex.Free? && !r.handle.Open?
  {
    hide Run;
    StartInv();
    RunKeeps(START, actions);
    assert RequestInv(Run(START, actions).value.requests[k]);
  }

  // ---- what a stop does to the answer ----

  lemma NextKeepsPromise(s: Server, a: Action, k: nat, promise: Promise)
    requires ServerInv(s) && Next(s, a).Some? && k < |s.requests| && Kept(promise, s.requests[k])
    ensures k < |Next(s, a).value.requests| && Kept(promise, Next(s, a).value.requests[k])
  {
    hide MustReport, SeenByBind, NeverOpened, InTime, Work, Watch, Cancel;
    hide TableInv, DispatcherInv, ReuseInv, RequestInv;
    assert RequestInv(s.requests[k]);
    match a
    case WorkerStep(j, choice) => if j == k { WorkKeeps(s.requests[k], choice); }
    case WatcherStep(j) => if j == k { WatchStepKeeps(s.requests[k]); }
    case CancelStep =>
      if s.dispatcher.todo != [] && s.dispatcher.todo[0] == k { CancelStepKeeps(s.requests[k]); }
    case Tick(j) => if j == k { TickKeepsPromise(s.requests[k], promise); }
    case _ =>
  }

  lemma TickKeepsPromise(r: Request, promise: Promise)
    requires Kept(promise, r)
    ensures Kept(promise, r.(expired := true))
  {
  }

  lemma {:induction false} RunKeepsPromise(s: Server, actions: seq<Action>, k: nat, promise: Promise)
    requires ServerInv(s) && Run(s, actions).Some? && k < |s.requests| && Kept(promise, s.requests[k])
    ensures var t := Run(s, actions).value; k < |t.requests| && Kept(promise, t.requests[k])
  {
    hide ServerInv, Next, Kept;
    if actions != [] {
      var front := actions[..|actions| - 1];
      RunKeepsPromise(s, front, k, promise);
      RunKeeps(s, front);
      NextKeepsPromise(Run(s, front).value, actions[|actions| - 1], k, promise);
    }
  }

  predicate Undecided(w: Worker) {
    !w.Responding? && !w.Finishing? && !w.Gone? && !w.RefusedCompleting? && !w.RefusedJoining?
  }

  /** Whatever happens after a cancel or a deadline, a request that was still undecided then reports it. */
  lemma StopIsReported(before: seq<Action>, after: seq<Action>, k: nat)
    requires Run(START, before).Some? && k < |Run(START, before).value.requests|
    requires Run(Run(START, before).value, after).Some?
    requires Undecided(Run(START, before).value.requests[k].worker)
    ensures var r := Run(START, before).value.requests[k];
            var later := Run(Run(START, before).value, after).value;
            && k < |later.requests|
            && (later.requests[k].responses != [] ==>
                  var status := later.requests[k].responses[0];
                  && (r.cancelled ==> status.Cancelled? || status.Malformed?)
                  && (r.timedOut ==> status.Cancelled? || status.DeadlineExceeded? || status.Malformed?))
  {
    var s := Run(START, before).value;
    hide Run;
    StartInv();
    RunKeeps(START, before);
    assert RequestInv(s.requests[k]);
    if s.requests[k].cancelled {
      assert Kept(ReportsCancel, s.requests[k]);
      RunKeepsPromise(s, after, k, ReportsCancel);
    } else if s.requests[k].timedOut {
      assert Kept(ReportsStop, s.requests[k]);
      RunKeepsPromise(s, after, k, ReportsStop);
    }
    RequestsStay(s, after);
  }

  lemma {:induction false} RequestsStay(s: Server, actions: seq<Action>)
    requires Run(s, actions).Some?
    ensures |s.requests| <= |Run(s, actions).value.requests|
  {
    hide Work, Watch, Cancel;
    if actions != [] {
      RequestsStay(s, actions[..|actions| - 1]);
    }
  }

  /** An answer never reports a stop that did not happen. */
  lemma ReportsAreHonest(actions: seq<Action>, k: nat)
    requires Run(START, actions).Some? && k < |Run(START, actions).value.requests|
    ensures var r := Run(START, actions).value.requests[k];
            forall status | status in r.responses :: HonestStatus(r, status)
  {
    hide Run;
    StartInv();
    RunKeeps(START, actions);
    assert RequestInv(Run(START, actions).value.requests[k]);
  }

  /** A request that was stopped before its tool opened the database never opens it; one that was stopped before
      bind() looked at the flags runs with an interrupted handle; one that completed in time never times out. */
  lemma StopsTakeEffect(before: seq<Action>, after: seq<Action>, k: nat)
    requires Run(START, before).Some? && k < |Run(START, before).value.requests|
    requires Run(Run(START, before).value, after).Some?
    ensures var r := Run(START, before).value.requests[k];
            var later := Run(Run(START, before).value, after).value.requests;
            && k < |later|
            && (StoppedNow(r) && r.handle.Unopened? ==> later[k].handle.Unopened?)
            && (StoppedNow(r) && r.worker.Binding? && BindDone(later[k].worker) ==> later[k].interrupted)
            && (r.completed && !r.timedOut ==> !later[k].timedOut)
  {
    var s := Run(START, before).value;
    hide Run;
    StartInv();
    RunKeeps(START, before);
    assert RequestInv(s.requests[k]);
    RequestsStay(s, after);
    var r := s.requests[k];
    if Kept(StaysUnopened, r) {
      RunKeepsPromise(s, after, k, StaysUnopened);
    }
    if Kept(BindSees, r) {
      RunKeepsPromise(s, after, k, BindSees);
    }
    if Kept(StaysInTime, r) {
      RunKeepsPromise(s, after, k, StaysInTime);
    }
  }

  // ---- cancel() reaches its requests ----

  /** Request k has been cancelled, or the dispatcher is about to. */
  ghost predicate Reached(s: Server, k: nat) {
    && k < |s.requests|
    && (s.requests[k].cancels > 0 || (s.dispatcher.Cancelling? && k in s.dispatcher.todo))
  }

  lemma NextReaches(s: Server, a: Action, k: nat)
    requires ServerInv(s) && Next(s, a).Some? && Reached(s, k)
    ensures Reached(Next(s, a).value, k)
  {
    hide Work, Watch, Cancel, TableInv, DispatcherInv, ReuseInv, RequestInv, StillKept;
    assert RequestInv(s.requests[k]);
    match a
    case WorkerStep(j, choice) => if j == k { WorkKeeps(s.requests[k], choice); }
    case WatcherStep(j) => if j == k { WatchStepKeeps(s.requests[k]); }
    case CancelStep =>
      if s.dispatcher.todo != [] && s.dispatcher.todo[0] == k {
        CancelStepKeeps(s.requests[k]);
      }
    case _ =>
  }

  lemma {:induction false} RunReaches(s: Server, actions: seq<Action>, k: nat)
    requires ServerInv(s) && Run(s, actions).Some? && Reached(s, k)
    ensures Reached(Run(s, actions).value, k)
  {
    hide ServerInv, Next, Reached;
    if actions != [] {
      var front := actions[..|actions| - 1];
      RunReaches(s, front, k);
      RunKeeps(s, front);
      NextReaches(Run(s, front).value, actions[|actions| - 1], k);
    }
  }

  /** Once the dispatcher is done with a cancellation, or with a broken transport, the request named, or every
      unfinished request, has been cancelled. */
  lemma CancellationsArrive(before: seq<Action>, a: Action, after: seq<Action>, k: nat)
    requires Run(START, before).Some? && k < |Run(START, before).value.requests|
    requires !Run(START, before).value.requests[k].worker.Gone?
    requires a == Notify(Run(START, before).value.requests[k].id) || a == Fail
    requires Next(Run(START, before).value, a).Some?
    requires Run(Next(Run(START, before).value, a).value, after).Some?
    ensures var end := Run(Next(Run(START, before).value, a).value, after).value;
            && k < |end.requests|
            && (!end.dispatcher.Cancelling? ==> end.requests[k].cancelled && end.requests[k].cancels > 0)
  {
    var s := Run(START, before).value;
    hide Run, Live;
    StartInv();
    RunKeeps(START, before);
    LiveOnes(s.requests);
    assert InTable(s, k);
    var t := Next(s, a).value;
    assert Reached(t, k);
    NextKeeps(s, a);
    hide Next;
    RunReaches(t, after, k);
    RunKeeps(t, after);
    assert RequestInv(Run(t, after).value.requests[k]);
  }
}
