/**
 * The client event loop as a state machine on values: one action per arm of the loop's `select!`, plus what
 * callers do through the command channel. An action that is not possible in a state leaves it unchanged, so
 * every sequence of actions is a run.
 */
module Client {
  import opened Basics
  import opened Wire
  import Calls = RpcCalls
  import Subs = Subscriptions
  import ClientNode

  /** Who posted a SendMessage command. Kept for the properties only; no branch depends on it. */
  datatype Origin = Application | FromCall | FromSubscription | Heartbeat | Reply

  datatype Command =
    | SendMessage(message: Message, origin: Origin)
    | RpcCall(request: Message, caller: nat)
    | Subscribe(ri: Ri, sub: nat)
    | Unsubscribe(sub: nat)
    | TerminateClient

  datatype FailedKind = NetworkError | LoginFailed

  datatype ConnEvent =
    | ConnectionFailed(kind: FailedKind)
    | Connected(conn: nat)
    | RpcFrameReceived(frame: Frame)
    | HeartbeatTimeout
    | Disconnected

  datatype ClientEvent = EventFailed(kind: FailedKind) | EventConnected(version: ApiVersion) | EventDisconnected

  datatype Panic = DuplicateSubscriptionId | UnknownVersion
  datatype Status = Running | Terminated | Panicked(reason: Panic)

  /** A message taken from the command queue and the connection it was handed to, if there was one. */
  datatype Sent = Sent(message: Message, origin: Origin, over: Option<nat>)

  /** A request handed to a mounted node. */
  datatype Task = Task(mount: Path, rest: Path, request: Frame)

  /** What the loop has told mounted nodes and the application. */
  datatype Outputs = Outputs(tasks: seq<Task>, events: seq<ClientEvent>)

  /** The callers' side of the command channel. */
  datatype Callers = Callers(
    issued: seq<Message>,        // request of every RpcCall posted
    posted: seq<Message>,        // every message the application posted
    nextSub: nat,                // next subscription id
    alive: set<nat>)             // subscribers not dropped yet

  datatype State = State(
    status: Status,
    cmds: seq<Command>,          // command channel
    calls: Calls.Calls,
    subs: Subs.Subs,
    conn: Option<nat>,           // the connection whose command sender the loop holds
    version: Option<ApiVersion>,
    nextId: int,                 // next id RpcMessage::new_request gives out
    sent: seq<Sent>,             // every SendMessage handled
    mark: nat,                   // length of `sent` when `conn` was set
    checks: nat,                 // API version checks in flight
    out: Outputs,
    callers: Callers)

  const INIT := State(Running, [], Calls.NO_CALLS, Subs.NO_SUBS, None, None, 1, [], 0, 0,
                      Outputs([], []), Callers([], [], 0, {}))

  /** What the loop has handed to the connection it is using now. */
  function HandedOver(s: State): seq<Sent> {
    if s.conn.Some? && s.mark <= |s.sent| then s.sent[s.mark..] else []
  }

  function ErrorFrame(id: int, code: ErrorCode): Frame { ResponseFrame(Some(id), Some(Error(code))) }
  function OkFrame(id: int): Frame { ResponseFrame(Some(id), Some(Success(Unit))) }

  // --------------------------------------------------------------- handlers

  function Post(s: State, message: Message, origin: Origin): State {
    s.(cmds := s.cmds + [SendMessage(message, origin)])
  }

  function Pop(s: State): State
    requires s.cmds != []
  {
    s.(cmds := s.cmds[1..])
  }

  function HandleSendMessage(s: State, message: Message, origin: Origin): State {
    s.(sent := s.sent + [Sent(message, origin, s.conn)])
  }

  function HandleRpcCall(lib: Library, s: State, request: Message, caller: nat): State {
    match request.RequestId()
    case None => s.(calls := Calls.Refuse(s.calls, caller, lib.answersIdless))
    case Some(id) => Post(s.(calls := Calls.Register(s.calls, id, caller)), request, FromCall)
  }

  function HandleSubscribe(lib: Library, s: State, ri: Ri, sub: nat): State {
    if s.version.None? then
      s.(subs := Subs.Reject(s.subs, sub, ErrorFrame(s.nextId, InternalError)), nextId := s.nextId + 1)
    else
      var version := s.version.value;
      var accepted := Subs.AcceptedRi(lib, version, ri);
      if accepted.None? then
        s.(subs := Subs.Reject(s.subs, sub, ErrorFrame(s.nextId, InvalidParam)), nextId := s.nextId + 1)
      else if Subs.HasId(s.subs.table, sub) then
        s.(status := Panicked(DuplicateSubscriptionId))
      else if Subs.HasRi(s.subs.table, accepted.value) then
        s.(subs := Subs.Join(s.subs, accepted.value, sub, OkFrame(s.nextId)), nextId := s.nextId + 1)
      else
        Post(s.(subs := Subs.AddNew(s.subs, accepted.value, sub, s.nextId), nextId := s.nextId + 1),
             Subs.CreateSubscriptionRequest(accepted.value, Subs.Subscribing, version, s.nextId), FromSubscription)
  }

  function HandleUnsubscribe(s: State, sub: nat): State {
    if s.version.None? then s.(status := Panicked(UnknownVersion))
    else
      var orphaned := Subs.Orphaned(s.subs.table, sub);
      var s' := s.(subs := Subs.Remove(s.subs, sub));
      if orphaned.None? then s'
      else
        Post(s'.(nextId := s.nextId + 1),
             Subs.CreateSubscriptionRequest(orphaned.value, Subs.Unsubscribing, s.version.value, s.nextId),
             FromSubscription)
  }

  /** Takes the first command off the queue and carries it out. */
  function HandleCommand(lib: Library, s: State): State
    requires s.cmds != []
  {
    match s.cmds[0]
    case SendMessage(message, origin) => HandleSendMessage(Pop(s), message, origin)
    case RpcCall(request, caller) => HandleRpcCall(lib, Pop(s), request, caller)
    case Subscribe(ri, sub) => HandleSubscribe(lib, Pop(s), ri, sub)
    case Unsubscribe(sub) => HandleUnsubscribe(Pop(s), sub)
    case TerminateClient => Pop(s).(status := Terminated)
  }

  function HandleResponse(s: State, frame: Frame): State
    requires frame.ResponseFrame?
  {
    if frame.id.None? then s
    else if frame.body.None? then Post(s, Response(frame.id, Error(ParseError)), Reply)
    else
      var id := frame.id.value;
      if id in s.calls.pending then s.(calls := Calls.Deliver(s.calls, id, frame))
      else if id in s.subs.requests then s.(subs := Subs.Confirm(s.subs, id, frame))
      else s
  }

  /** The RI of a notification, if it has a path and is well formed. */
  function NotificationRi(lib: Library, frame: Frame): Option<Ri>
    requires frame.SignalFrame?
  {
    var source := if frame.source.Some? then frame.source.value else "";
    if frame.shvPath.None? || !lib.validRi(frame.shvPath.value, source, frame.name) then None
    else Some(Ri(frame.shvPath.value, source, frame.name))
  }

  function HandleSignal(lib: Library, s: State, frame: Frame): State
    requires frame.SignalFrame?
  {
    var ri := NotificationRi(lib, frame);
    if ri.None? || s.version.None? then s
    else
      s.(subs := s.subs.(logs := Subs.FanOut(lib, s.version.value, ri.value, frame,
                                             s.subs.table, s.subs.logs, |s.subs.table|)))
  }

  function HandleFrame(lib: Library, s: State, frame: Frame): State {
    match frame
    case RequestFrame(_, _, _, _, _, _) =>
      (match ClientNode.Route(lib, frame)
       case Ignored => s
       case Answer(body) => Post(s, Response(Some(frame.requestId), body), Reply)
       case Dispatch(mount, rest) => s.(out := s.out.(tasks := s.out.tasks + [Task(mount, rest, frame)])))
    case ResponseFrame(_, _) => HandleResponse(s, frame)
    case SignalFrame(_, _, _, _) => HandleSignal(lib, s, frame)
    case OtherFrame => s
  }

  function Ping(version: ApiVersion, id: int): Message {
    Request(Some(id), if version.V2? then ".broker/app" else ".app", "ping", NoParam)
  }

  function HandleEvent(lib: Library, s: State, event: ConnEvent): State {
    match event
    case ConnectionFailed(kind) => s.(out := s.out.(events := s.out.events + [EventFailed(kind)]))
    case Connected(conn) => s.(conn := Some(conn), mark := |s.sent|, checks := s.checks + 1)
    case RpcFrameReceived(frame) => HandleFrame(lib, s, frame)
    case HeartbeatTimeout =>
      if s.version.None? then s
      else Post(s.(nextId := s.nextId + 1), Ping(s.version.value, s.nextId), Heartbeat)
    case Disconnected =>
      s.(conn := None, subs := Subs.Clear(s.subs), calls := Calls.Clear(s.calls),
         out := s.out.(events := s.out.events + [EventDisconnected]))
  }

  function HandleVersion(s: State, result: Option<ApiVersion>): State
    requires s.checks > 0
  {
    var s' := s.(checks := s.checks - 1);
    if result.Some? then s'.(version := result, out := s.out.(events := s.out.events + [EventConnected(result.value)]))
    else s'.(out := s.out.(events := s.out.events + [EventFailed(NetworkError)]))
  }

  function HandleTimeout(s: State, t: nat): State
    requires t in s.calls.timers
  {
    var ends := s.calls.timers[t].request in s.calls.pending;
    s.(calls := Calls.Expire(s.calls, t, Calls.TimeoutFrame(s.nextId)),
       nextId := if ends then s.nextId + 1 else s.nextId)
  }

  // ---------------------------------------------------------------- actions

  datatype Action =
    // callers, through the command channel
    | DoRpcCall(path: string, rpcMethod: string, param: Param)
    | RawRpcCall(request: Message)     // an RpcCall command with whatever request id, or none
    | DoSendMessage(message: Message)
    | DoSubscribe(ri: Ri)
    | DropSubscriber(sub: nat)
    | DoTerminate
    // the loop
    | NextCommand
    | NextEvent(event: ConnEvent)
    | EventsClosed                     // the connection task is gone
    | VersionResult(result: Option<ApiVersion>)
    | TimerExpires(timer: nat)
    | TimerUpdated(timer: nat)
    | TimerClosed(timer: nat)
  {
    predicate CallersOwn() {
      DoRpcCall? || RawRpcCall? || DoSendMessage? || DoSubscribe? || DropSubscriber? || DoTerminate?
    }
  }

  predicate Enabled(s: State, a: Action) {
    && s.status.Running?
    && match a
       case DropSubscriber(sub) => sub in s.callers.alive
       case NextCommand => s.cmds != []
       case VersionResult(_) => s.checks > 0
       case TimerExpires(t) => t in s.calls.timers
       case TimerUpdated(t) => t in s.calls.timers && s.calls.timers[t].updates > 0
       case TimerClosed(t) => t in s.calls.timers && s.calls.timers[t].updates == 0 && !Calls.Held(s.calls, t)
       case _ => true
  }

  function IssueCall(s: State, request: Message): State {
    s.(cmds := s.cmds + [RpcCall(request, |s.callers.issued|)],
       callers := s.callers.(issued := s.callers.issued + [request]))
  }

  function IssueSubscribe(s: State, ri: Ri): State {
    var sub := s.callers.nextSub;
    s.(cmds := s.cmds + [Subscribe(ri, sub)],
       callers := s.callers.(nextSub := sub + 1, alive := s.callers.alive + {sub}))
  }

  function Next(lib: Library, s: State, a: Action): State
    requires Enabled(s, a)
  {
    match a
    case DoRpcCall(path, rpcMethod, param) =>
      IssueCall(s.(nextId := s.nextId + 1), Request(Some(s.nextId), path, rpcMethod, param))
    case RawRpcCall(request) => IssueCall(s, request)
    case DoSendMessage(message) =>
      Post(s.(callers := s.callers.(posted := s.callers.posted + [message])), message, Application)
    case DoSubscribe(ri) => IssueSubscribe(s, ri)
    case DropSubscriber(sub) =>
      s.(cmds := s.cmds + [Unsubscribe(sub)], callers := s.callers.(alive := s.callers.alive - {sub}))
    case DoTerminate => s.(cmds := s.cmds + [TerminateClient])
    case NextCommand => HandleCommand(lib, s)
    case NextEvent(event) => HandleEvent(lib, s, event)
    case EventsClosed => s.(status := Terminated)
    case VersionResult(result) => HandleVersion(s, result)
    case TimerExpires(t) => HandleTimeout(s, t)
    case TimerUpdated(t) => s.(calls := Calls.Restart(s.calls, t))
    case TimerClosed(t) => s.(calls := Calls.Cancel(s.calls, t))
  }

  function Step(lib: Library, s: State, a: Action): State {
    if Enabled(s, a) then Next(lib, s, a) else s
  }

  /** The state a run leads to. */
  function After(lib: Library, run: seq<Action>): State {
    if run == [] then INIT else Step(lib, After(lib, run[..|run| - 1]), run[|run| - 1])
  }

  /** The state a run leads to from `s`. */
  function AfterFrom(lib: Library, s: State, run: seq<Action>): State {
    if run == [] then s else Step(lib, AfterFrom(lib, s, run[..|run| - 1]), run[|run| - 1])
  }

  lemma OneMoreAction(lib: Library, run: seq<Action>, a: Action)
    ensures After(lib, run + [a]) == Step(lib, After(lib, run), a)
  {
    assert (run + [a])[..|run|] == run;
  }

  lemma OneMoreFrom(lib: Library, s: State, more: seq<Action>, a: Action)
    ensures AfterFrom(lib, s, more + [a]) == Step(lib, AfterFrom(lib, s, more), a)
  {
    assert (more + [a])[..|more|] == more;
  }

  /** Along one run, from each state to the next. */
  lemma PrefixStep(lib: Library, run: seq<Action>, i: nat)
    requires i < |run|
    ensures After(lib, run[..i + 1]) == Step(lib, After(lib, run[..i]), run[i])
  {
    assert run[..i + 1] == run[..i] + [run[i]];
    OneMoreAction(lib, run[..i], run[i]);
  }

  lemma PrefixStepFrom(lib: Library, s: State, more: seq<Action>, i: nat)
    requires i < |more|
    ensures AfterFrom(lib, s, more[..i + 1]) == Step(lib, AfterFrom(lib, s, more[..i]), more[i])
  {
    assert more[..i + 1] == more[..i] + [more[i]];
    OneMoreFrom(lib, s, more[..i], more[i]);
  }

  lemma {:induction false} RunsCompose(lib: Library, run: seq<Action>, more: seq<Action>)
    ensures AfterFrom(lib, After(lib, run), more) == After(lib, run + more)
    decreases |more|
  {
    if more == [] {
      assert run + more == run;
    } else {
      RunsCompose(lib, run, more[..|more| - 1]);
      assert (run + more)[..|run + more| - 1] == run + more[..|more| - 1];
    }
  }

  // --------------------------------------------------------- queue contents

  function CallerOf(c: Command): seq<nat> { if c.RpcCall? then [c.caller] else [] }
  function SubscriptionOf(c: Command): seq<nat> { if c.Subscribe? then [c.sub] else [] }
  function IdentifiedCallOf(c: Command): seq<Message> {
    if c.RpcCall? && c.request.RequestId().Some? then [c.request] else []
  }

  function Collect<T>(cmds: seq<Command>, f: Command -> seq<T>): seq<T> {
    if cmds == [] then [] else f(cmds[0]) + Collect(cmds[1..], f)
  }

  lemma {:induction false} CollectAppend<T>(cmds: seq<Command>, c: Command, f: Command -> seq<T>)
    ensures Collect(cmds + [c], f) == Collect(cmds, f) + f(c)
  {
    if cmds == [] {
      assert Collect([c], f) == f(c) + Collect([], f);
    } else {
      CollectAppend(cmds[1..], c, f);
      assert (cmds + [c])[1..] == cmds[1..] + [c];
    }
  }

  /** Calls and subscriptions whose command has not been handled yet, in queue order. */
  function WaitingCalls(s: State): seq<nat> { Collect(s.cmds, CallerOf) }
  function WaitingSubs(s: State): seq<nat> { Collect(s.cmds, SubscriptionOf) }

  /** The queued messages of one origin, and the handled ones. */
  function Queued(cmds: seq<Command>, origin: Origin): seq<Message> {
    if cmds == [] then []
    else
      (if cmds[0].SendMessage? && cmds[0].origin == origin then [cmds[0].message] else []) + Queued(cmds[1..], origin)
  }

  function SentBy(sent: seq<Sent>, origin: Origin): seq<Message> {
    if sent == [] then []
    else
      var last := sent[|sent| - 1];
      SentBy(sent[..|sent| - 1], origin) + (if last.origin == origin then [last.message] else [])
  }

  lemma {:induction false} QueuedAppend(cmds: seq<Command>, c: Command, origin: Origin)
    ensures Queued(cmds + [c], origin)
         == Queued(cmds, origin) + (if c.SendMessage? && c.origin == origin then [c.message] else [])
  {
    if cmds == [] {
      var own := if c.SendMessage? && c.origin == origin then [c.message] else [];
      assert Queued([c], origin) == own + Queued([], origin);
    } else {
      QueuedAppend(cmds[1..], c, origin);
      assert (cmds + [c])[1..] == cmds[1..] + [c];
    }
  }

  lemma SentAppend(sent: seq<Sent>, x: Sent, origin: Origin)
    ensures SentBy(sent + [x], origin) == SentBy(sent, origin) + (if x.origin == origin then [x.message] else [])
  {
    assert (sent + [x])[..|sent|] == sent;
  }

  /** Handling a SendMessage command moves its message from the queue to what was sent, for every origin. */
  lemma SendMoves(cmds: seq<Command>, sent: seq<Sent>, over: Option<nat>, origin: Origin)
    requires cmds != [] && cmds[0].SendMessage?
    ensures SentBy(sent + [Sent(cmds[0].message, cmds[0].origin, over)], origin) + Queued(cmds[1..], origin)
         == SentBy(sent, origin) + Queued(cmds, origin)
  {
    var moved := if cmds[0].origin == origin then [cmds[0].message] else [];
    SentAppend(sent, Sent(cmds[0].message, cmds[0].origin, over), origin);
    Reassociate(SentBy(sent, origin), moved, Queued(cmds[1..], origin));
  }

  lemma Reassociate(a: seq<Message>, b: seq<Message>, c: seq<Message>)
    ensures a + b + c == a + (b + c)
  {
  }
}
