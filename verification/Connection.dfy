/** The connection task: connect, serve one connection, reconnect. */
module Connection {
  import opened Basics
  import opened Wire
  import opened Client

  // ------------------------------------------------------------- the task

  /** What is known of a frame that could not be received whole. */
  datatype Meta = NoMeta | RequestMeta(id: int) | ResponseMeta(id: int) | OtherMeta

  datatype ReceiveError = TimedOut(meta: Meta) | TooLarge(meta: Meta) | Broken

  /** What happens to the task. `writerUp` says whether the writer task still takes messages. */
  datatype Input =
    | EventSenderClosed
    | ConnectFails | LoginFails | LoginSucceeds
    | HeartbeatElapses
    | CommandArrives(message: Message, writerUp: bool)
    | CommandsClosed
    | FrameArrives(frame: Frame)
    | ReceiveFails(error: ReceiveError, writerUp: bool)

  datatype Phase = Connecting | Online(conn: nat, armed: bool, read: nat) | Ended

  /** A message handed to the writer of a connection: relayed from the client, or the loop's own error response. */
  datatype Written = Written(message: Message, conn: nat, relayed: bool)

  datatype TaskState = TaskState(reconnects: bool, phase: Phase, nextConn: nat, written: seq<Written>)

  function InitTask(reconnects: bool): TaskState { TaskState(reconnects, Connecting, 0, []) }

  predicate Accepts(t: TaskState, input: Input) {
    match input
    case EventSenderClosed => t.phase.Connecting? && t.reconnects
    case ConnectFails => t.phase.Connecting?
    case LoginFails => t.phase.Connecting?
    case LoginSucceeds => t.phase.Connecting?
    case HeartbeatElapses => t.phase.Online? && t.phase.armed
    case _ => t.phase.Online?
  }

  /** The connection is over: try again, or stop if no reconnecting is configured. */
  function Closed(t: TaskState): TaskState { t.(phase := if t.reconnects then Connecting else Ended) }

  function Code(error: ReceiveError): ErrorCode {
    if error.TimedOut? then MethodCallTimeout else MethodCallException
  }

  /** The meta data of an error the loop survives. */
  function Survived(error: ReceiveError): Meta {
    match error
    case TimedOut(RequestMeta(_)) => error.meta
    case TimedOut(ResponseMeta(_)) => error.meta
    case TooLarge(meta) => meta
    case _ => NoMeta
  }

  /** Hands a message to the writer. */
  function Write(t: TaskState, message: Message, relayed: bool, rearm: bool, writerUp: bool)
    : (TaskState, seq<ConnEvent>)
    requires t.phase.Online?
  {
    if writerUp then
      (t.(written := t.written + [Written(message, t.phase.conn, relayed)],
          phase := t.phase.(armed := t.phase.armed || rearm)), [])
    else (Closed(t), [Disconnected])
  }

  /** The task after an input, and the events it sends. */
  function Serve(t: TaskState, input: Input): (TaskState, seq<ConnEvent>)
    requires Accepts(t, input)
  {
    match input
    case EventSenderClosed => (t.(phase := Ended), [])
    case ConnectFails => (Closed(t), [ConnectionFailed(NetworkError)])
    case LoginFails => (Closed(t), [ConnectionFailed(LoginFailed)])
    case LoginSucceeds =>
      (t.(phase := Online(t.nextConn, true, 0), nextConn := t.nextConn + 1), [Connected(t.nextConn)])
    case HeartbeatElapses => (t.(phase := t.phase.(armed := false)), [HeartbeatTimeout])
    case CommandArrives(message, writerUp) =>
      Write(t.(phase := t.phase.(read := t.phase.read + 1)), message, true, message.IsRequest(), writerUp)
    case CommandsClosed => (t.(phase := Ended), [])
    case FrameArrives(frame) => (t, [RpcFrameReceived(frame)])
    case ReceiveFails(error, writerUp) =>
      match Survived(error)
      case NoMeta => (Closed(t), [Disconnected])
      case ResponseMeta(id) => (t, [RpcFrameReceived(ResponseFrame(Some(id), Some(Error(Code(error)))))])
      case RequestMeta(id) => Write(t, Response(Some(id), Error(Code(error))), false, true, writerUp)
      case OtherMeta => (t, [])
  }

  function ServeStep(t: TaskState, input: Input): (TaskState, seq<ConnEvent>) {
    if Accepts(t, input) then Serve(t, input) else (t, [])
  }

  function TaskAfter(reconnects: bool, script: seq<Input>): TaskState {
    if script == [] then InitTask(reconnects)
    else ServeStep(TaskAfter(reconnects, script[..|script| - 1]), script[|script| - 1]).0
  }

  /** Every event the task sends in the course of the script. */
  function EventsOf(reconnects: bool, script: seq<Input>): seq<ConnEvent> {
    if script == [] then []
    else
      var n := |script| - 1;
      EventsOf(reconnects, script[..n]) + ServeStep(TaskAfter(reconnects, script[..n]), script[n]).1
  }

  // ------------------------------------------------- the language of events

  /** The connection in use after an event, or None if the event is out of place. */
  function Follow(conn: Option<nat>, e: ConnEvent): Option<Option<nat>> {
    match e
    case ConnectionFailed(_) => if conn.None? then Some(None) else None
    case Connected(k) => if conn.None? then Some(Some(k)) else None
    case RpcFrameReceived(_) => if conn.Some? then Some(conn) else None
    case HeartbeatTimeout => if conn.Some? then Some(conn) else None
    case Disconnected => if conn.Some? then Some(None) else None
  }

  function FollowAll(conn: Option<nat>, events: seq<ConnEvent>): Option<Option<nat>>
    decreases |events|
  {
    if events == [] then Some(conn)
    else
      var next := Follow(conn, events[0]);
      if next.None? then None else FollowAll(next.value, events[1..])
  }

  lemma {:induction false} FollowAppend(conn: Option<nat>, events: seq<ConnEvent>, e: ConnEvent)
    ensures FollowAll(conn, events + [e])
         == var before := FollowAll(conn, events); if before.None? then None else Follow(before.value, e)
    decreases |events|
  {
    if events == [] {
      assert FollowAll(conn, [e])
          == var next := Follow(conn, e); if next.None? then None else FollowAll(next.value, []);
    } else {
      assert (events + [e])[1..] == events[1..] + [e];
      if Follow(conn, events[0]).Some? {
        FollowAppend(Follow(conn, events[0]).value, events[1..], e);
      }
    }
  }

  function ConnOf(t: TaskState): Option<nat> { if t.phase.Online? then Some(t.phase.conn) else None }

  lemma ServeFollows(t: TaskState, input: Input)
    requires Accepts(t, input)
    ensures |Serve(t, input).1| <= 1
    ensures FollowAll(ConnOf(t), Serve(t, input).1).Some?
    ensures !input.CommandsClosed? ==> FollowAll(ConnOf(t), Serve(t, input).1) == Some(ConnOf(Serve(t, input).0))
    ensures input.CommandsClosed? ==> Serve(t, input).1 == [] && Serve(t, input).0.phase.Ended?
  {
  }

  /** One try: a failure, or a connection with what came in over it. */
  datatype Session = Failed(kind: FailedKind) | Served(conn: nat, body: seq<ConnEvent>)

  predicate Inner(e: ConnEvent) { e.RpcFrameReceived? || e.HeartbeatTimeout? }

  ghost predicate Proper(s: Session) {
    s.Served? ==> forall i :: 0 <= i < |s.body| ==> Inner(s.body[i])
  }

  function Spelled(s: Session): seq<ConnEvent> {
    match s
    case Failed(kind) => [ConnectionFailed(kind)]
    case Served(conn, body) => [Connected(conn)] + body + [Disconnected]
  }

  function Flatten(sessions: seq<Session>): seq<ConnEvent> {
    if sessions == [] then [] else Flatten(sessions[..|sessions| - 1]) + Spelled(sessions[|sessions| - 1])
  }

  /** An unfinished session: nothing yet, or a connection still open. */
  ghost predicate OpenTail(tail: seq<ConnEvent>) {
    tail == [] || (tail[0].Connected? && forall i :: 1 <= i < |tail| ==> Inner(tail[i]))
  }

  lemma FlattenAppend(sessions: seq<Session>, s: Session)
    ensures Flatten(sessions + [s]) == Flatten(sessions) + Spelled(s)
  {
    assert (sessions + [s])[..|sessions|] == sessions;
  }

  /** The events are whole sessions and then possibly an open one. */
  ghost predicate InLanguage(events: seq<ConnEvent>) {
    exists sessions, tail :: IsParse(events, sessions, tail)
  }

  ghost predicate IsParse(events: seq<ConnEvent>, sessions: seq<Session>, tail: seq<ConnEvent>) {
    && events == Flatten(sessions) + tail
    && (forall i :: 0 <= i < |sessions| ==> Proper(sessions[i]))
    && OpenTail(tail)
  }

  lemma {:induction false} FollowedEventsParse(events: seq<ConnEvent>)
    returns (sessions: seq<Session>, tail: seq<ConnEvent>)
    requires FollowAll(None, events).Some?
    ensures IsParse(events, sessions, tail)
    ensures FollowAll(None, events).value.None? <==> tail == []
  {
    if events == [] {
      return [], [];
    }
    var n := |events| - 1;
    var e := events[n];
    assert events == events[..n] + [e];
    FollowAppend(None, events[..n], e);
    sessions, tail := FollowedEventsParse(events[..n]);
    if (tail == [] && e.Connected?) || (tail != [] && Inner(e)) {
      LongerTail(events[..n], sessions, tail, e);
      tail := tail + [e];
    } else {
      var s := if tail == [] then Failed(e.kind) else Served(tail[0].conn, tail[1..]);
      SessionEnds(events[..n], sessions, tail, e, s);
      sessions, tail := sessions + [s], [];
    }
  }

  lemma LongerTail(events: seq<ConnEvent>, sessions: seq<Session>, tail: seq<ConnEvent>, e: ConnEvent)
    requires IsParse(events, sessions, tail) && ((tail == [] && e.Connected?) || (tail != [] && Inner(e)))
    ensures IsParse(events + [e], sessions, tail + [e])
  {
    assert Flatten(sessions) + tail + [e] == Flatten(sessions) + (tail + [e]);
  }

  lemma SessionEnds(events: seq<ConnEvent>, sessions: seq<Session>, tail: seq<ConnEvent>, e: ConnEvent, s: Session)
    requires IsParse(events, sessions, tail)
    requires if tail == [] then e.ConnectionFailed? && s == Failed(e.kind)
             else e.Disconnected? && s == Served(tail[0].conn, tail[1..])
    ensures IsParse(events + [e], sessions + [s], [])
  {
    SessionSpelled(tail, e, s);
    var all := sessions + [s];
    FlattenAppend(sessions, s);
    assert Flatten(sessions) + tail + [e] == Flatten(sessions) + (tail + [e]) == Flatten(all) + [];
    assert forall i :: 0 <= i < |sessions| ==> all[i] == sessions[i];
  }

  lemma SessionSpelled(tail: seq<ConnEvent>, e: ConnEvent, s: Session)
    requires OpenTail(tail)
    requires if tail == [] then e.ConnectionFailed? && s == Failed(e.kind)
             else e.Disconnected? && s == Served(tail[0].conn, tail[1..])
    ensures Spelled(s) == tail + [e] && Proper(s)
  {
    if tail != [] {
      assert tail == [tail[0]] + tail[1..];
    }
  }

  lemma {:induction false} FollowConcat(conn: Option<nat>, events: seq<ConnEvent>, more: seq<ConnEvent>)
    requires FollowAll(conn, events).Some?
    ensures FollowAll(conn, events + more) == FollowAll(FollowAll(conn, events).value, more)
    decreases |events|
  {
    if events == [] {
      assert events + more == more;
    } else {
      assert (events + more)[1..] == events[1..] + more;
      FollowConcat(Follow(conn, events[0]).value, events[1..], more);
    }
  }

  lemma {:induction false} InnerEventsFollow(conn: nat, body: seq<ConnEvent>)
    requires forall i :: 0 <= i < |body| ==> Inner(body[i])
    ensures FollowAll(Some(conn), body) == Some(Some(conn))
  {
    if body != [] {
      InnerEventsFollow(conn, body[1..]);
    }
  }

  lemma TailFollows(tail: seq<ConnEvent>)
    requires OpenTail(tail)
    ensures FollowAll(None, tail).Some? && (tail != [] ==> FollowAll(None, tail) == Some(Some(tail[0].conn)))
  {
    if tail != [] {
      InnerEventsFollow(tail[0].conn, tail[1..]);
    }
  }

  lemma {:induction false} SessionsFollow(sessions: seq<Session>)
    requires forall i :: 0 <= i < |sessions| ==> Proper(sessions[i])
    ensures FollowAll(None, Flatten(sessions)) == Some(None)
  {
    if sessions != [] {
      var n := |sessions| - 1;
      var s := sessions[n];
      SessionsFollow(sessions[..n]);
      FollowConcat(None, Flatten(sessions[..n]), Spelled(s));
      if s.Served? {
        TailFollows([Connected(s.conn)] + s.body);
        FollowAppend(None, [Connected(s.conn)] + s.body, Disconnected);
      } else {
        assert FollowAll(None, [ConnectionFailed(s.kind)]) == FollowAll(None, []);
      }
    }
  }

  /** The automaton accepts exactly the language of sessions. */
  lemma FollowedIffInLanguage(events: seq<ConnEvent>)
    ensures FollowAll(None, events).Some? <==> InLanguage(events)
  {
    if FollowAll(None, events).Some? {
      var sessions, tail := FollowedEventsParse(events);
    }
    if sessions, tail :| IsParse(events, sessions, tail) {
      SessionsFollow(sessions);
      FollowConcat(None, Flatten(sessions), tail);
      TailFollows(tail);
    }
  }

  lemma {:induction false} TaskFollows(reconnects: bool, script: seq<Input>)
    ensures FollowAll(None, EventsOf(reconnects, script)).Some?
    ensures !TaskAfter(reconnects, script).phase.Ended? ==>
              FollowAll(None, EventsOf(reconnects, script)) == Some(ConnOf(TaskAfter(reconnects, script)))
  {
    if script != [] {
      var n := |script| - 1;
      var t := TaskAfter(reconnects, script[..n]);
      TaskFollows(reconnects, script[..n]);
      if Accepts(t, script[n]) {
        ServeFollows(t, script[n]);
        FollowConcat(None, EventsOf(reconnects, script[..n]), Serve(t, script[n]).1);
      } else {
        assert EventsOf(reconnects, script) == EventsOf(reconnects, script[..n]);
      }
    }
  }

  /** Whatever happens to the task, the events it sends are in the language. */
  lemma EventStreamInLanguage(reconnects: bool, script: seq<Input>)
    ensures InLanguage(EventsOf(reconnects, script))
  {
    TaskFollows(reconnects, script);
    FollowedIffInLanguage(EventsOf(reconnects, script));
  }

  // ------------------------------------------------------ the task in place

  class ConnectionTask {
    const reconnects: bool
    var phase: Phase
    var nextConn: nat
    var written: seq<Written>    // handed to the writer task
    var events: seq<ConnEvent>   // sent to the client loop

    ghost function View(): TaskState
      reads this
    {
      TaskState(reconnects, phase, nextConn, written)
    }

    constructor (reconnects: bool)
      ensures View() == InitTask(reconnects) && events == []
    {
      this.reconnects := reconnects;
      phase, nextConn, written, events := Connecting, 0, [], [];
    }

    method Emit(e: ConnEvent)
      modifies this`events
      ensures events == old(events) + [e]
    {
      events := events + [e];
    }

    method Close()
      modifies this`phase
      ensures View() == Closed(old(View()))
    {
      phase := if reconnects then Connecting else Ended;
    }

    method Rearm()
      requires phase.Online?
      modifies this`phase
      ensures phase == old(phase).(armed := true)
    {
      phase := phase.(armed := true);
    }

    method WriteOut(message: Message, relayed: bool, writerUp: bool)
      requires phase.Online?
      modifies this
      ensures View() == Write(old(View()), message, relayed, false, writerUp).0
      ensures events == old(events) + Write(old(View()), message, relayed, false, writerUp).1
    {
      if writerUp {
        written := written + [Written(message, phase.conn, relayed)];
      } else {
        Emit(Disconnected);
        Close();
      }
    }

    /** One turn of whichever `select!` or `await` the task is in. */
    method Handle(input: Input)
      requires Accepts(View(), input)
      modifies this
      ensures View() == Serve(old(View()), input).0
      ensures events == old(events) + Serve(old(View()), input).1
    {
      match input
      case EventSenderClosed => phase := Ended;
      case ConnectFails => Emit(ConnectionFailed(NetworkError)); Close();
      case LoginFails => Emit(ConnectionFailed(LoginFailed)); Close();
      case LoginSucceeds =>
        phase := Online(nextConn, true, 0);
        Emit(Connected(nextConn));
        nextConn := nextConn + 1;
      case HeartbeatElapses =>
        phase := phase.(armed := false);
        Emit(HeartbeatTimeout);
      case CommandArrives(message, writerUp) =>
        phase := phase.(read := phase.read + 1);
        if message.IsRequest() {
          Rearm();
        }
        WriteOut(message, true, writerUp);
      case CommandsClosed => phase := Ended;
      case FrameArrives(frame) => Emit(RpcFrameReceived(frame));
      case ReceiveFails(error, writerUp) => HandleReceiveError(error, writerUp);
    }

    method HandleReceiveError(error: ReceiveError, writerUp: bool)
      requires phase.Online?
      modifies this
      ensures View() == Serve(old(View()), ReceiveFails(error, writerUp)).0
      ensures events == old(events) + Serve(old(View()), ReceiveFails(error, writerUp)).1
    {
      match error
      case TimedOut(RequestMeta(id)) =>
        Rearm();
        WriteOut(Response(Some(id), Error(MethodCallTimeout)), false, writerUp);
      case TimedOut(ResponseMeta(id)) =>
        Emit(RpcFrameReceived(ResponseFrame(Some(id), Some(Error(MethodCallTimeout)))));
      case TooLarge(RequestMeta(id)) =>
        Rearm();
        WriteOut(Response(Some(id), Error(MethodCallException)), false, writerUp);
      case TooLarge(ResponseMeta(id)) =>
        Emit(RpcFrameReceived(ResponseFrame(Some(id), Some(Error(MethodCallException)))));
      case TooLarge(OtherMeta) =>
      case _ => Emit(Disconnected); Close();
    }

    method Perform(input: Input)
      modifies this
      ensures View() == ServeStep(old(View()), input).0
      ensures events == old(events) + ServeStep(old(View()), input).1
    {
      var possible := Possible(input);
      if possible {
        Handle(input);
      }
    }

    method Possible(input: Input) returns (possible: bool)
      ensures possible <==> Accepts(View(), input)
    {
      possible := match input
        case EventSenderClosed => phase.Connecting? && reconnects
        case ConnectFails => phase.Connecting?
        case LoginFails => phase.Connecting?
        case LoginSucceeds => phase.Connecting?
        case HeartbeatElapses => phase.Online? && phase.armed
        case _ => phase.Online?;
    }
  }

  /** The whole task: its events are always in the language, and it ends only as the script tells. */
  method RunConnectionTask(reconnects: bool, script: seq<Input>) returns (events: seq<ConnEvent>)
    ensures InLanguage(events)
    ensures events == EventsOf(reconnects, script)
  {
    var task := new ConnectionTask(reconnects);
    for n := 0 to |script|
      invariant task.View() == TaskAfter(reconnects, script[..n]) && task.events == EventsOf(reconnects, script[..n])
      invariant fresh(task)
    {
      task.Perform(script[n]);
      assert script[..n + 1][..n] == script[..n];
    }
    assert script[..|script|] == script;
    EventStreamInLanguage(reconnects, script);
    events := task.events;
  }
}
