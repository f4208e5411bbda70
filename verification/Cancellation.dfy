/** Tool requests of the MCP server (tools/mcp/mcp_server.cpp, tools/mcp/mcp_tools.cpp): for every accepted request a
    worker thread and a deadline thread, and the dispatcher, which cancels. Each action below is one step of one thread
    between two accesses to shared state; a run interleaves them in any order. */
module Cancellation {
  import opened Wrappers
  import opened Index

  datatype Status =
    Success | InvalidParams | UnknownTool | DatabaseError | Cancelled | DeadlineExceeded | Malformed

  datatype Handle = Unopened | Open | Closed

  datatype Owner = Free | ByWorker | ByWatcher | ByDispatcher

  /** The next step of runTool and of the call inside it. */
  datatype Worker =
    | Starting
    | Parsing
    | Refusing | RefusedCompleting | RefusedJoining
    | Calling
    | Binding | BindLocked | BindStored | BindChecked | BindInterrupting | BindUnlocking
    | Running
    | Unbinding | UnbindLocked | UnbindCleared
    | Closing
    | Completing | Joining | Deciding | Responding
    | Finishing
    | Gone

  /** waitForDeadline. */
  datatype Watcher = NotStarted | Waiting | TimedOut | Holding | Unlocking | Returned

  /** McpRequestControl::cancel, seen from one request. */
  datatype Canceller = Out | Marked | Locked | Unlocked

  /** One accepted request with its McpRequestControl. interrupted and misfired only record what happened: whether the
      handle was interrupted since it was bound, and whether an interrupt ever went to a handle that was not open. */
  datatype Request = Request(
    id: Text,
    cancelled: bool, timedOut: bool, expired: bool, completed: bool,
    mutex: Owner, bound: bool, handle: Handle, interrupted: bool, misfired: bool,
    worker: Worker, watcher: Watcher, canceller: Canceller, cancels: nat,
    result: Status, responses: seq<Status>)

  datatype Dispatcher =
    | Reading
    | Cancelling(todo: seq<nat>, failed: bool)   // holds requests_mutex
    | Draining
    | Stopped

  /** requests is every request ever accepted; table maps the identifiers now in use to them. */
  datatype Server = Server(requests: seq<Request>, table: map<Text, nat>, dispatcher: Dispatcher)

  /** What a worker meets on the way: does the next part succeed, and which status does it produce. */
  datatype Choice = Choice(ok: bool, status: Status)

  datatype Action =
    | Accept(id: Text)
    | Notify(id: Text)
    | Fail
    | EndOfInput
    | CancelStep
    | Drained
    | WorkerStep(k: nat, choice: Choice)
    | WatcherStep(k: nat)
    | Tick(k: nat)

  function NewRequest(id: Text): Request {
    Request(id, false, false, false, false, Free, false, Unopened, false, false, Starting, NotStarted, Out, 0,
            Success, [])
  }

  predicate StoppedNow(r: Request) {
    r.cancelled || r.timedOut || r.expired
  }

  function StoppedStatus(r: Request): Status {
    if r.cancelled then Cancelled else DeadlineExceeded
  }

  /** A tool reports that it was stopped only when it was. */
  function ToolStatus(r: Request, status: Status): Status {
    match status
    case Cancelled => if StoppedNow(r) then StoppedStatus(r) else Success
    case DeadlineExceeded => if StoppedNow(r) then StoppedStatus(r) else Success
    case Malformed => Success
    case _ => status
  }

  /** semindex_db_interrupt. */
  function Interrupt(r: Request): Request {
    r.(interrupted := true, misfired := r.misfired || !r.handle.Open?)
  }

  function InterruptIfBound(r: Request): Request {
    if r.bound then Interrupt(r) else r
  }

  /** Up to the handle. */
  function Begin(r: Request, choice: Choice): Option<Request> {
    if r.worker.Starting? then Some(r.(worker := Parsing, watcher := Watcher.Waiting))
    else if r.worker.Parsing? then Some(r.(worker := if choice.ok then Calling else Refusing))
    else if r.worker.Calling? then
      if StoppedNow(r) then Some(r.(worker := Completing, result := StoppedStatus(r)))
      else if !choice.ok then Some(r.(worker := Completing, result := ToolStatus(r, choice.status)))
      else Some(r.(worker := Binding, handle := Open))
    else None
  }

  /** A payload that holds no tool call is answered before the deadline thread is joined. */
  function Refuse(r: Request): Option<Request> {
    if r.worker.Refusing? then Some(r.(worker := RefusedCompleting, responses := r.responses + [Malformed]))
    else if r.worker.RefusedCompleting? then Some(r.(worker := RefusedJoining, completed := true))
    else if r.worker.RefusedJoining? then (if r.watcher.Returned? then Some(r.(worker := Finishing)) else None)
    else None
  }

  /** McpRequestControl::bind. */
  function Bind(r: Request): Option<Request> {
    if r.worker.Binding? then (if r.mutex.Free? then Some(r.(worker := BindLocked, mutex := ByWorker)) else None)
    else if r.worker.BindLocked? then Some(r.(worker := BindStored, bound := true, interrupted := false))
    else if r.worker.BindStored? then Some(r.(worker := if r.cancelled then BindInterrupting else BindChecked))
    else if r.worker.BindChecked? then
      Some(r.(worker := if r.timedOut || r.expired then BindInterrupting else BindUnlocking))
    else if r.worker.BindInterrupting? then Some(Interrupt(r).(worker := BindUnlocking))
    else if r.worker.BindUnlocking? then Some(r.(worker := Running, mutex := Free))
    else None
  }

  /** The tool, then McpRequestControl::unbind, then the handle is closed. */
  function Unbind(r: Request, choice: Choice): Option<Request> {
    if r.worker.Running? then Some(r.(worker := Unbinding, result := ToolStatus(r, choice.status)))
    else if r.worker.Unbinding? then
      (if r.mutex.Free? then Some(r.(worker := UnbindLocked, mutex := ByWorker)) else None)
    else if r.worker.UnbindLocked? then Some(r.(worker := UnbindCleared, bound := false))
    else if r.worker.UnbindCleared? then Some(r.(worker := Closing, mutex := Free))
    else if r.worker.Closing? then Some(r.(worker := Completing, handle := Closed))
    else None
  }

  function Answer(r: Request): Option<Request> {
    if r.worker.Completing? then Some(r.(worker := Joining, completed := true))
    else if r.worker.Joining? then (if r.watcher.Returned? then Some(r.(worker := Deciding)) else None)
    else if r.worker.Deciding? then
      Some(r.(worker := Responding,
              result := if r.cancelled then Cancelled else if r.timedOut then DeadlineExceeded else r.result))
    else if r.worker.Responding? then Some(r.(worker := Finishing, responses := r.responses + [r.result]))
    else if r.worker.Finishing? then Some(r.(worker := Gone))
    else None
  }

  /** One step of the worker; None while it waits. The table entry is removed in the step out of Finishing. */
  function Work(r: Request, choice: Choice): Option<Request> {
    match r.worker
    case Starting => Begin(r, choice)
    case Parsing => Begin(r, choice)
    case Calling => Begin(r, choice)
    case Refusing => Refuse(r)
    case RefusedCompleting => Refuse(r)
    case RefusedJoining => Refuse(r)
    case Binding => Bind(r)
    case BindLocked => Bind(r)
    case BindStored => Bind(r)
    case BindChecked => Bind(r)
    case BindInterrupting => Bind(r)
    case BindUnlocking => Bind(r)
    case Running => Unbind(r, choice)
    case Unbinding => Unbind(r, choice)
    case UnbindLocked => Unbind(r, choice)
    case UnbindCleared => Unbind(r, choice)
    case Closing => Unbind(r, choice)
    case Gone => None
    case _ => Answer(r)
  }

  /** One step of the deadline thread. The wait and the flag are one step under completion_mutex. */
  function Watch(r: Request): Option<Request> {
    match r.watcher
    case NotStarted => None
    case Waiting =>
      if r.completed then Some(r.(watcher := Returned))
      else if r.expired then Some(r.(watcher := TimedOut, timedOut := true))
      else None
    case TimedOut => if r.mutex.Free? then Some(r.(watcher := Holding, mutex := ByWatcher)) else None
    case Holding => Some(InterruptIfBound(r).(watcher := Unlocking))
    case Unlocking => Some(r.(watcher := Returned, mutex := Free))
    case Returned => None
  }

  /** One step of cancel(). */
  function Cancel(r: Request): Option<Request> {
    match r.canceller
    case Out => Some(r.(canceller := Marked, cancelled := true))
    case Marked => if r.mutex.Free? then Some(r.(canceller := Locked, mutex := ByDispatcher)) else None
    case Locked => Some(InterruptIfBound(r).(canceller := Unlocked))
    case Unlocked => Some(r.(canceller := Out, mutex := Free, cancels := r.cancels + 1))
  }

  /** The requests still in the table, which a transport failure cancels one by one. */
  function Live(requests: seq<Request>): seq<nat> {
    if requests == [] then []
    else
      var n := |requests| - 1;
      Live(requests[..n]) + if !requests[n].worker.Gone? then [n] else []
  }

  function Replace(s: Server, k: nat, r: Request): Server
    requires k < |s.requests|
  {
    s.(requests := s.requests[k := r])
  }

  function Next(s: Server, a: Action): Option<Server> {
    match a
    case Accept(id) =>
      if !s.dispatcher.Reading? then None
      else if id in s.table then Some(s)
      else Some(s.(requests := s.requests + [NewRequest(id)], table := s.table[id := |s.requests|]))
    case Notify(id) =>
      if !s.dispatcher.Reading? then None
      else Some(s.(dispatcher := Cancelling(if id in s.table then [s.table[id]] else [], false)))
    case Fail =>
      if !s.dispatcher.Reading? then None else Some(s.(dispatcher := Cancelling(Live(s.requests), true)))
    case EndOfInput =>
      if !s.dispatcher.Reading? then None else Some(s.(dispatcher := Draining))
    case CancelStep =>
      if !s.dispatcher.Cancelling? then None
      else if s.dispatcher.todo == [] then
        Some(s.(dispatcher := if s.dispatcher.failed then Draining else Reading))
      else
        var k := s.dispatcher.todo[0];
        if k >= |s.requests| then None
        else
          var r := Cancel(s.requests[k]);
        if r.None? then None
        else
          Some(Replace(s, k, r.value).(dispatcher := if r.value.canceller.Out?
                                                     then s.dispatcher.(todo := s.dispatcher.todo[1..])
                                                     else s.dispatcher))
    case Drained =>
      if !s.dispatcher.Draining? || s.table != map[] then None else Some(s.(dispatcher := Stopped))
    case WorkerStep(k, choice) =>
      if k >= |s.requests| then None
      else if s.requests[k].worker.Finishing? && s.dispatcher.Cancelling? then None
      else
        var r := Work(s.requests[k], choice);
        if r.None? then None
        else
          Some(Replace(s, k, r.value).(table := if r.value.worker.Gone? then s.table - {r.value.id} else s.table))
    case WatcherStep(k) =>
      if k >= |s.requests| then None
      else
        var r := Watch(s.requests[k]);
        if r.None? then None else Some(Replace(s, k, r.value))
    case Tick(k) =>
      if k >= |s.requests| || s.requests[k].expired then None
      else Some(Replace(s, k, s.requests[k].(expired := true)))
  }

  /** The state after a run; None when one of its actions was not possible. */
  function Run(s: Server, actions: seq<Action>): Option<Server> {
    if actions == [] then Some(s)
    else
      match Run(s, actions[..|actions| - 1])
      case None => None
      case Some(t) => Next(t, actions[|actions| - 1])
  }

  const START := Server([], map[], Reading)
}
