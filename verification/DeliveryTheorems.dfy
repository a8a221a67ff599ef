/** What reaches the client of the frames that arrive, and what the task writes, in terms of its inputs alone. */
module DeliveryTheorems {
  import opened Basics
  import opened Wire
  import opened Client
  import opened Connection
  import opened ClientSystem

  // ------------------------------------------------------- the life of the task

  datatype Stage = Trying | On | Over

  /** A connection lost or not made is tried again if reconnecting is configured, and is the end otherwise. */
  function Lost(reconnects: bool): Stage { if reconnects then Trying else Over }

  /** The frame that could not be received was a request with this id, or a response. */
  function RequestNamed(error: ReceiveError): Option<int> {
    match error
    case TimedOut(RequestMeta(id)) => Some(id)
    case TooLarge(RequestMeta(id)) => Some(id)
    case _ => None
  }

  function ResponseNamed(error: ReceiveError): Option<int> {
    match error
    case TimedOut(ResponseMeta(id)) => Some(id)
    case TooLarge(ResponseMeta(id)) => Some(id)
    case _ => None
  }

  /** Nothing is known of the frame but, perhaps, that it was too large. */
  predicate Fatal(error: ReceiveError) {
    RequestNamed(error).None? && ResponseNamed(error).None? && error != TooLarge(OtherMeta)
  }

  function NextStage(reconnects: bool, stage: Stage, input: Input): Stage {
    match stage
    case Over => Over
    case Trying =>
      (match input
       case EventSenderClosed => if reconnects then Over else Trying
       case ConnectFails => Lost(reconnects)
       case LoginFails => Lost(reconnects)
       case LoginSucceeds => On
       case _ => Trying)
    case On =>
      match input
      case CommandArrives(_, writerUp) => if writerUp then On else Lost(reconnects)
      case CommandsClosed => Over
      case ReceiveFails(error, writerUp) =>
        if Fatal(error) || (RequestNamed(error).Some? && !writerUp) then Lost(reconnects) else On
      case _ => On
  }

  function StageAfter(reconnects: bool, script: seq<Input>): Stage {
    if script == [] then Trying
    else NextStage(reconnects, StageAfter(reconnects, script[..|script| - 1]), script[|script| - 1])
  }

  /** How many connections have been made. */
  function Logins(reconnects: bool, script: seq<Input>): nat {
    if script == [] then 0
    else
      var before, input := script[..|script| - 1], script[|script| - 1];
      Logins(reconnects, before) + (if StageAfter(reconnects, before).Trying? && input.LoginSucceeds? then 1 else 0)
  }

  predicate InStage(t: TaskState, stage: Stage) {
    match stage
    case Trying => t.phase.Connecting?
    case On => t.phase.Online?
    case Over => t.phase.Ended?
  }

  lemma StageStep(t: TaskState, stage: Stage, input: Input)
    requires InStage(t, stage)
    ensures InStage(ServeStep(t, input).0, NextStage(t.reconnects, stage, input))
    ensures ServeStep(t, input).0.reconnects == t.reconnects
    ensures ServeStep(t, input).0.nextConn == t.nextConn + if stage.Trying? && input.LoginSucceeds? then 1 else 0
    ensures t.phase.Online? && t.phase.conn == t.nextConn - 1 && ServeStep(t, input).0.phase.Online? ==>
              ServeStep(t, input).0.phase.conn == t.phase.conn
    ensures stage.Trying? && input.LoginSucceeds? ==> ServeStep(t, input).0.phase.conn == t.nextConn
  {
  }

  /** The task is connecting, online or ended as the inputs say, and serves the last connection made. */
  lemma {:induction false} TaskStage(reconnects: bool, script: seq<Input>)
    ensures
      var t := TaskAfter(reconnects, script);
      && t.reconnects == reconnects && InStage(t, StageAfter(reconnects, script))
      && t.nextConn == Logins(reconnects, script)
      && (t.phase.Online? ==> t.phase.conn == Logins(reconnects, script) - 1)
  {
    if script != [] {
      var before := script[..|script| - 1];
      TaskStage(reconnects, before);
      StageStep(TaskAfter(reconnects, before), StageAfter(reconnects, before), script[|script| - 1]);
    }
  }

  // -------------------------------------------------------------- frames received

  function FramesIn(events: seq<ConnEvent>): seq<Frame> {
    if events == [] then []
    else
      var e := events[|events| - 1];
      FramesIn(events[..|events| - 1]) + (if e.RpcFrameReceived? then [e.frame] else [])
  }

  lemma {:induction false} FramesInConcat(events: seq<ConnEvent>, more: seq<ConnEvent>)
    ensures FramesIn(events + more) == FramesIn(events) + FramesIn(more)
    decreases |more|
  {
    if more == [] {
      assert events + more == events;
    } else {
      var n := |more| - 1;
      assert (events + more)[..|events + more| - 1] == events + more[..n];
      FramesInConcat(events, more[..n]);
    }
  }

  function ErrorCodeOf(error: ReceiveError): ErrorCode {
    if error.TimedOut? then MethodCallTimeout else MethodCallException
  }

  /** The frames an input brings in: the one received, or an error response in place of a response that was not. */
  function Brings(input: Input): seq<Frame> {
    match input
    case FrameArrives(frame) => [frame]
    case ReceiveFails(error, _) =>
      if ResponseNamed(error).Some? then [ResponseFrame(ResponseNamed(error), Some(Error(ErrorCodeOf(error))))] else []
    case _ => []
  }

  /** All that arrived while a connection was on. */
  function Arrived(reconnects: bool, script: seq<Input>): seq<Frame> {
    if script == [] then []
    else
      var before, input := script[..|script| - 1], script[|script| - 1];
      Arrived(reconnects, before) + (if StageAfter(reconnects, before).On? then Brings(input) else [])
  }

  lemma FramesOfStep(t: TaskState, stage: Stage, input: Input)
    requires InStage(t, stage)
    ensures FramesIn(ServeStep(t, input).1) == if stage.On? then Brings(input) else []
  {
    var sent := ServeStep(t, input).1;
    if sent != [] {
      assert |sent| == 1 && sent[..0] == [];
    }
  }

  /** The frames among the events of a run are, in order and each once, those that arrived while it was online. */
  lemma {:induction false} FramesAreForwarded(reconnects: bool, script: seq<Input>)
    ensures FramesIn(EventsOf(reconnects, script)) == Arrived(reconnects, script)
  {
    if script != [] {
      var before, input := script[..|script| - 1], script[|script| - 1];
      FramesAreForwarded(reconnects, before);
      TaskStage(reconnects, before);
      FramesOfStep(TaskAfter(reconnects, before), StageAfter(reconnects, before), input);
      FramesInConcat(EventsOf(reconnects, before), ServeStep(TaskAfter(reconnects, before), input).1);
    }
  }

  // ------------------------------------------------------------ connections failed

  function FailuresIn(events: seq<ConnEvent>): seq<FailedKind> {
    if events == [] then []
    else
      var e := events[|events| - 1];
      FailuresIn(events[..|events| - 1]) + (if e.ConnectionFailed? then [e.kind] else [])
  }

  lemma {:induction false} FailuresInConcat(events: seq<ConnEvent>, more: seq<ConnEvent>)
    ensures FailuresIn(events + more) == FailuresIn(events) + FailuresIn(more)
    decreases |more|
  {
    if more == [] {
      assert events + more == events;
    } else {
      var n := |more| - 1;
      assert (events + more)[..|events + more| - 1] == events + more[..n];
      FailuresInConcat(events, more[..n]);
    }
  }

  function FailureOf(input: Input): seq<FailedKind> {
    match input
    case ConnectFails => [NetworkError]
    case LoginFails => [LoginFailed]
    case _ => []
  }

  function Failures(reconnects: bool, script: seq<Input>): seq<FailedKind> {
    if script == [] then []
    else
      var before, input := script[..|script| - 1], script[|script| - 1];
      Failures(reconnects, before) + (if StageAfter(reconnects, before).Trying? then FailureOf(input) else [])
  }

  lemma FailuresOfStep(t: TaskState, stage: Stage, input: Input)
    requires InStage(t, stage)
    ensures FailuresIn(ServeStep(t, input).1) == if stage.Trying? then FailureOf(input) else []
  {
    var sent := ServeStep(t, input).1;
    if sent != [] {
      assert |sent| == 1 && sent[..0] == [];
    }
  }

  /** Each failed attempt is announced once, as a network error or a failed login. */
  lemma {:induction false} FailuresAreAnnounced(reconnects: bool, script: seq<Input>)
    ensures FailuresIn(EventsOf(reconnects, script)) == Failures(reconnects, script)
  {
    if script != [] {
      var before, input := script[..|script| - 1], script[|script| - 1];
      FailuresAreAnnounced(reconnects, before);
      TaskStage(reconnects, before);
      FailuresOfStep(TaskAfter(reconnects, before), StageAfter(reconnects, before), input);
      FailuresInConcat(EventsOf(reconnects, before), ServeStep(TaskAfter(reconnects, before), input).1);
    }
  }

  // ------------------------------------------------------------- messages written

  /** What an input makes the task write to a connection while the writer is up. */
  function Writes(input: Input, conn: nat): seq<Written> {
    match input
    case CommandArrives(message, true) => [Written(message, conn, true)]
    case ReceiveFails(error, true) =>
      if RequestNamed(error).Some?
      then [Written(Response(RequestNamed(error), Error(ErrorCodeOf(error))), conn, false)] else []
    case _ => []
  }

  function AllWrites(reconnects: bool, script: seq<Input>): seq<Written> {
    if script == [] then []
    else
      var before, input := script[..|script| - 1], script[|script| - 1];
      var logins := Logins(reconnects, before);
      AllWrites(reconnects, before)
      + (if StageAfter(reconnects, before).On? && logins > 0 then Writes(input, logins - 1) else [])
  }

  lemma WritesOfStep(t: TaskState, stage: Stage, input: Input)
    requires InStage(t, stage)
    ensures ServeStep(t, input).0.written == t.written + if stage.On? then Writes(input, t.phase.conn) else []
  {
    assert t.written + [] == t.written;
  }

  /**
   * What is written is, in order, each message that arrived from the client while online, and one error response for
   * each request that could not be received, all to the connection then on.
   */
  lemma {:induction false} MessagesAreWritten(reconnects: bool, script: seq<Input>)
    ensures TaskAfter(reconnects, script).written == AllWrites(reconnects, script)
  {
    if script != [] {
      var before, input := script[..|script| - 1], script[|script| - 1];
      MessagesAreWritten(reconnects, before);
      TaskStage(reconnects, before);
      WritesOfStep(TaskAfter(reconnects, before), StageAfter(reconnects, before), input);
    }
  }

  /** The heartbeat timer runs from the login, again from each request or error response written, until it elapses. */
  lemma HeartbeatTimerStep(t: TaskState, input: Input)
    requires t.phase.Online? || (t.phase.Connecting? && input.LoginSucceeds?)
    requires ServeStep(t, input).0.phase.Online?
    ensures
      var t' := ServeStep(t, input).0;
      t'.phase.armed
      <==> || (input.LoginSucceeds? && t.phase.Connecting?)
           || (input.CommandArrives? && input.message.IsRequest())
           || (input.ReceiveFails? && RequestNamed(input.error).Some?)
           || (t.phase.Online? && t.phase.armed && !input.HeartbeatElapses?)
  {
  }

  // ---------------------------------------------------------------- to the client

  /** The events among the actions of a run. */
  function EventsTaken(run: seq<Action>): seq<ConnEvent> {
    if run == [] then []
    else
      var a := run[|run| - 1];
      EventsTaken(run[..|run| - 1]) + (if a.NextEvent? then [a.event] else [])
  }

  lemma EventsTakenAppend(run: seq<Action>, a: Action)
    ensures EventsTaken(run + [a]) == EventsTaken(run) + if a.NextEvent? then [a.event] else []
  {
    assert (run + [a])[..|run|] == run;
  }

  /** What happened to the task in the moves of a run. */
  function InputsOf(lib: Library, reconnects: bool, moves: seq<Move>): seq<Input> {
    if moves == [] then []
    else
      var before, m := moves[..|moves| - 1], moves[|moves| - 1];
      InputsOf(lib, reconnects, before)
      + (if m.TaskDoes? && CanMove(Reached(lib, reconnects, before), m) then [m.input] else [])
  }

  lemma EventsOfAppend(reconnects: bool, script: seq<Input>, input: Input)
    ensures EventsOf(reconnects, script + [input])
         == EventsOf(reconnects, script) + ServeStep(TaskAfter(reconnects, script), input).1
    ensures TaskAfter(reconnects, script + [input]) == ServeStep(TaskAfter(reconnects, script), input).0
  {
    assert (script + [input])[..|script|] == script;
  }

  /** `taken` events, then the queued ones, are the first of those sent, and all of them while the client runs. */
  ghost predicate InTransit(x: System, taken: seq<ConnEvent>, sent: seq<ConnEvent>) {
    taken + x.events <= sent && (x.client.status.Running? ==> taken + x.events == sent)
  }

  lemma TransitAfterServe(lib: Library, x: System, input: Input, taken: seq<ConnEvent>, sent: seq<ConnEvent>)
    requires InTransit(x, taken, sent) && CanServe(x, input)
    ensures InTransit(MoveOn(lib, x, TaskDoes(input)), taken, sent + Serve(x.task, input).1)
  {
    var more := Serve(x.task, input).1;
    assert taken + x.events + more == taken + (x.events + more);
  }

  lemma StillRunningBefore(lib: Library, s: State, a: Action)
    ensures Step(lib, s, a).status.Running? ==> s.status.Running?
  {
  }

  lemma TransitAfterTaking(lib: Library, x: System, taken: seq<ConnEvent>, sent: seq<ConnEvent>)
    requires InTransit(x, taken, sent) && CanMove(x, ClientTakesEvent)
    ensures InTransit(MoveOn(lib, x, ClientTakesEvent), taken + [x.events[0]], sent)
  {
    assert x.events == [x.events[0]] + x.events[1..];
    assert taken + x.events == taken + [x.events[0]] + x.events[1..];
  }

  lemma TransitAfterAction(lib: Library, x: System, a: Action, taken: seq<ConnEvent>, sent: seq<ConnEvent>)
    requires InTransit(x, taken, sent)
    ensures InTransit(x.(client := Step(lib, x.client, a)), taken, sent)
  {
    StillRunningBefore(lib, x.client, a);
  }

  /** The event the client takes in a move, if any. */
  function TakenIn(x: System, m: Move): seq<ConnEvent> {
    if CanMove(x, m) && m.ClientTakesEvent? then [x.events[0]] else []
  }

  /** The events the move makes the task send. */
  function SentIn(x: System, m: Move): seq<ConnEvent> {
    if CanMove(x, m) && m.TaskDoes? then ServeStep(x.task, m.input).1 else []
  }

  lemma TransitAfterMove(lib: Library, x: System, m: Move, taken: seq<ConnEvent>, sent: seq<ConnEvent>)
    requires InTransit(x, taken, sent)
    ensures InTransit(MoveOn(lib, x, m), taken + TakenIn(x, m), sent + SentIn(x, m))
  {
    assert taken + [] == taken && sent + [] == sent;
    if CanMove(x, m) {
      match m
      case ClientDoes(a) => TransitAfterAction(lib, x, a, taken, sent);
      case ClientTakesEvent => TransitAfterTaking(lib, x, taken, sent);
      case ClientSeesEnd => TransitAfterAction(lib, x, EventsClosed, taken, sent);
      case TaskDoes(input) => TransitAfterServe(lib, x, input, taken, sent);
    }
  }

  lemma EventsTakenIn(run: seq<Action>, x: System, m: Move)
    ensures EventsTaken(run + ActionOf(x, m)) == EventsTaken(run) + TakenIn(x, m)
  {
    if ActionOf(x, m) == [] {
      assert run + [] == run && EventsTaken(run) + [] == EventsTaken(run);
    } else {
      EventsTakenAppend(run, ActionOf(x, m)[0]);
      assert ActionOf(x, m) == [ActionOf(x, m)[0]];
    }
  }

  lemma TaskAfterMove(lib: Library, reconnects: bool, x: System, m: Move, script: seq<Input>)
    requires x.task == TaskAfter(reconnects, script)
    ensures
      var script' := script + (if m.TaskDoes? && CanMove(x, m) then [m.input] else []);
      MoveOn(lib, x, m).task == TaskAfter(reconnects, script')
      && EventsOf(reconnects, script') == EventsOf(reconnects, script) + SentIn(x, m)
  {
    if m.TaskDoes? && CanMove(x, m) {
      EventsOfAppend(reconnects, script, m.input);
    } else {
      assert script + [] == script && EventsOf(reconnects, script) + [] == EventsOf(reconnects, script);
    }
  }

  lemma {:induction false} EventsReachTheClient(lib: Library, reconnects: bool, moves: seq<Move>)
    ensures
      var x, script := Reached(lib, reconnects, moves), InputsOf(lib, reconnects, moves);
      && x.task == TaskAfter(reconnects, script)
      && InTransit(x, EventsTaken(ActionsOf(lib, reconnects, moves)), EventsOf(reconnects, script))
  {
    if moves != [] {
      var before, m := moves[..|moves| - 1], moves[|moves| - 1];
      var x, run, script := Reached(lib, reconnects, before), ActionsOf(lib, reconnects, before),
                            InputsOf(lib, reconnects, before);
      EventsReachTheClient(lib, reconnects, before);
      TaskAfterMove(lib, reconnects, x, m, script);
      EventsTakenIn(run, x, m);
      TransitAfterMove(lib, x, m, EventsTaken(run), EventsOf(reconnects, script));
    }
  }

  lemma FramesInPrefix(events: seq<ConnEvent>, more: seq<ConnEvent>)
    requires events <= more
    ensures FramesIn(events) <= FramesIn(more)
  {
    assert more == events + more[|events|..];
    FramesInConcat(events, more[|events|..]);
  }

  /**
   * On every run of both sides the frames the client has taken, then those in its event queue, are the first of those
   * that arrived while online, in order and each once; and they are all of them as long as the client runs.
   */
  lemma FramesReachTheClient(lib: Library, reconnects: bool, moves: seq<Move>)
    ensures
      var x := Reached(lib, reconnects, moves);
      var taken := FramesIn(EventsTaken(ActionsOf(lib, reconnects, moves)));
      var arrived := Arrived(reconnects, InputsOf(lib, reconnects, moves));
      taken + FramesIn(x.events) <= arrived && (x.client.status.Running? ==> taken + FramesIn(x.events) == arrived)
  {
    var x, script := Reached(lib, reconnects, moves), InputsOf(lib, reconnects, moves);
    var taken := EventsTaken(ActionsOf(lib, reconnects, moves));
    EventsReachTheClient(lib, reconnects, moves);
    FramesAreForwarded(reconnects, script);
    FramesInConcat(taken, x.events);
    FramesInPrefix(taken + x.events, EventsOf(reconnects, script));
  }
}
