/** The client loop and the connection task running side by side, joined by their two channels. */
module ClientSystem {
  import opened Basics
  import opened Wire
  import opened Client
  import opened Connection

  datatype System = System(
    client: State,
    task: TaskState,
    events: seq<ConnEvent>)   // sent by the task, not yet taken by the client

  datatype Move =
    | ClientDoes(a: Action)    // anything but taking an event
    | ClientTakesEvent
    | ClientSeesEnd
    | TaskDoes(input: Input)

  function Start(reconnects: bool): System { System(INIT, InitTask(reconnects), []) }

  /** No connection begins or ends in these events. */
  predicate Settled(events: seq<ConnEvent>) {
    forall i :: 0 <= i < |events| ==> !events[i].Connected? && !events[i].Disconnected?
  }

  /** The messages the client has put into the command channel of the task's connection. */
  function Channel(x: System): seq<Sent> {
    if x.task.phase.Online? && x.client.conn == Some(x.task.phase.conn) && Settled(x.events)
    then HandedOver(x.client) else []
  }

  /** Somebody can still send commands to the connection: the client, or the Connected event it has yet to take. */
  predicate CommandSenderAlive(x: System)
    requires x.task.phase.Online?
  {
    x.client.status.Running? && (x.client.conn == Some(x.task.phase.conn) || Connected(x.task.phase.conn) in x.events)
  }

  predicate CanServe(x: System, input: Input) {
    && Accepts(x.task, input)
    && match input
       case EventSenderClosed => !x.client.status.Running?
       case CommandArrives(message, _) =>
         x.task.phase.read < |Channel(x)| && Channel(x)[x.task.phase.read].message == message
       case CommandsClosed => x.task.phase.read >= |Channel(x)| && !CommandSenderAlive(x)
       case _ => true
  }

  predicate CanMove(x: System, m: Move) {
    match m
    case ClientDoes(a) => !a.NextEvent? && !a.EventsClosed?
    case ClientTakesEvent => x.client.status.Running? && x.events != []
    case ClientSeesEnd => x.client.status.Running? && x.events == [] && x.task.phase.Ended?
    case TaskDoes(input) => CanServe(x, input)
  }

  function MoveOn(lib: Library, x: System, m: Move): System {
    if !CanMove(x, m) then x
    else match m
      case ClientDoes(a) => x.(client := Step(lib, x.client, a))
      case ClientTakesEvent => x.(client := Step(lib, x.client, NextEvent(x.events[0])), events := x.events[1..])
      case ClientSeesEnd => x.(client := Step(lib, x.client, EventsClosed))
      case TaskDoes(input) =>
        var (task, sent) := Serve(x.task, input);
        System(x.client, task, if x.client.status.Running? then x.events + sent else x.events)
  }

  function Reached(lib: Library, reconnects: bool, moves: seq<Move>): System {
    if moves == [] then Start(reconnects)
    else MoveOn(lib, Reached(lib, reconnects, moves[..|moves| - 1]), moves[|moves| - 1])
  }

  /** What the client does in a move. */
  function ActionOf(x: System, m: Move): seq<Action> {
    if !CanMove(x, m) then []
    else match m
      case ClientDoes(a) => [a]
      case ClientTakesEvent => [NextEvent(x.events[0])]
      case ClientSeesEnd => [EventsClosed]
      case TaskDoes(_) => []
  }

  function ActionsOf(lib: Library, reconnects: bool, moves: seq<Move>): seq<Action> {
    if moves == [] then []
    else
      var before := moves[..|moves| - 1];
      ActionsOf(lib, reconnects, before) + ActionOf(Reached(lib, reconnects, before), moves[|moves| - 1])
  }

  /** The client's part of a system run is a run of the client, so all that holds of those holds here. */
  lemma {:induction false} ClientRunOf(lib: Library, reconnects: bool, moves: seq<Move>)
    ensures Reached(lib, reconnects, moves).client == After(lib, ActionsOf(lib, reconnects, moves))
  {
    if moves != [] {
      var before := moves[..|moves| - 1];
      var x, m, run := Reached(lib, reconnects, before), moves[|moves| - 1], ActionsOf(lib, reconnects, before);
      ClientRunOf(lib, reconnects, before);
      if ActionOf(x, m) == [] {
        assert run + [] == run;
      } else {
        OneMoreAction(lib, run, ActionOf(x, m)[0]);
      }
    }
  }

  // ------------------------------------------------------ the two agree

  /** The events on their way lead from the client's connection to the task's. */
  ghost predicate Synced(x: System) {
    && x.client.mark <= |x.client.sent|
    && (x.client.status.Running? ==>
          && FollowAll(x.client.conn, x.events) == Some(ConnOf(x.task))
          && (x.task.phase.Online? ==> x.task.phase.read <= |Channel(x)|))
  }

  lemma {:induction false} SettledFollows(conn: Option<nat>, events: seq<ConnEvent>)
    requires Settled(events) && FollowAll(conn, events).Some?
    ensures FollowAll(conn, events) == Some(conn)
    decreases |events|
  {
    if events != [] {
      SettledFollows(Follow(conn, events[0]).value, events[1..]);
    }
  }

  lemma ClientActionFacts(lib: Library, s: State, a: Action)
    requires !a.NextEvent? && s.mark <= |s.sent|
    ensures
      var s' := Step(lib, s, a);
      && s'.conn == s.conn && s'.mark == s.mark && HandedOver(s) <= HandedOver(s')
      && s.mark <= |s'.sent| && (s'.status.Running? ==> s.status.Running?)
  {
  }

  lemma EventFacts(lib: Library, s: State, e: ConnEvent)
    ensures
      var s' := HandleEvent(lib, s, e);
      && s'.status == s.status && s'.sent == s.sent && s.cmds <= s'.cmds
      && (Follow(s.conn, e).Some? ==> Follow(s.conn, e) == Some(s'.conn))
      && (!e.Connected? ==> s'.mark == s.mark) && (e.Connected? ==> s'.mark == |s.sent|)
  {
  }

  lemma SyncedAfterTakesEvent(lib: Library, x: System)
    requires Synced(x) && CanMove(x, ClientTakesEvent)
    ensures Synced(MoveOn(lib, x, ClientTakesEvent))
  {
    var e, x' := x.events[0], MoveOn(lib, x, ClientTakesEvent);
    EventFacts(lib, x.client, e);
    if x.task.phase.Online? && Settled(x.events) {
      SettledFollows(x.client.conn, x.events);
      assert Settled(x'.events) && Channel(x') == Channel(x);
    }
  }

  lemma SyncedAfterServe(lib: Library, x: System, input: Input)
    requires Synced(x) && CanServe(x, input)
    ensures Synced(MoveOn(lib, x, TaskDoes(input)))
  {
    ServeFollows(x.task, input);
    var x' := MoveOn(lib, x, TaskDoes(input));
    if x.client.status.Running? {
      var sent := Serve(x.task, input).1;
      if input.CommandsClosed? {
        SenderAliveWhileOnline(x);
      }
      FollowConcat(x.client.conn, x.events, sent);
      if x'.task.phase.Online? && x.task.phase.Online? {
        assert forall i :: 0 <= i < |x.events| ==> x'.events[i] == x.events[i];
        assert Settled(x'.events) <==> Settled(x.events);
        assert Channel(x') == Channel(x);
      }
    }
  }

  lemma {:induction false} ConnectedIsQueued(conn: Option<nat>, events: seq<ConnEvent>, k: nat)
    requires FollowAll(conn, events) == Some(Some(k)) && conn != Some(k)
    ensures Connected(k) in events
    decreases |events|
  {
    if events[0] != Connected(k) {
      ConnectedIsQueued(Follow(conn, events[0]).value, events[1..], k);
    }
  }

  /** While the client loop runs, the command channel of a served connection is not closed. */
  lemma SenderAliveWhileOnline(x: System)
    requires Synced(x) && x.client.status.Running? && x.task.phase.Online?
    ensures CommandSenderAlive(x)
  {
    if x.client.conn != Some(x.task.phase.conn) {
      ConnectedIsQueued(x.client.conn, x.events, x.task.phase.conn);
    }
  }

  lemma SyncedAfterMove(lib: Library, x: System, m: Move)
    requires Synced(x)
    ensures Synced(MoveOn(lib, x, m))
  {
    if CanMove(x, m) {
      match m
      case ClientDoes(a) => ClientActionFacts(lib, x.client, a);
      case ClientTakesEvent => SyncedAfterTakesEvent(lib, x);
      case ClientSeesEnd =>
      case TaskDoes(input) => SyncedAfterServe(lib, x, input);
    }
  }

  lemma {:induction false} AlwaysSynced(lib: Library, reconnects: bool, moves: seq<Move>)
    ensures Synced(Reached(lib, reconnects, moves))
  {
    if moves != [] {
      AlwaysSynced(lib, reconnects, moves[..|moves| - 1]);
      SyncedAfterMove(lib, Reached(lib, reconnects, moves[..|moves| - 1]), moves[|moves| - 1]);
    }
  }

  /** The client never takes a frame or a heartbeat without holding a command sender. */
  lemma FramesOnlyWhileConnected(lib: Library, reconnects: bool, moves: seq<Move>)
    requires
      var x := Reached(lib, reconnects, moves);
      x.client.status.Running? && x.events != [] && Inner(x.events[0])
    ensures Reached(lib, reconnects, moves).client.conn.Some?
  {
    AlwaysSynced(lib, reconnects, moves);
  }

  /** The task takes its command channel for closed, and so the client for ended, only when the client has ended. */
  lemma TerminationIsNotMistaken(lib: Library, reconnects: bool, moves: seq<Move>)
    requires CanMove(Reached(lib, reconnects, moves), TaskDoes(CommandsClosed))
    ensures !Reached(lib, reconnects, moves).client.status.Running?
  {
    AlwaysSynced(lib, reconnects, moves);
    var x := Reached(lib, reconnects, moves);
    if x.client.status.Running? {
      SenderAliveWhileOnline(x);
    }
  }

  // --------------------------------------------------------- the heartbeat

  /** A heartbeat of the connection the events end in is among them. */
  predicate HeartbeatQueued(events: seq<ConnEvent>) {
    events != [] &&
    var last := events[|events| - 1];
    last.HeartbeatTimeout? || (!last.Connected? && !last.Disconnected? && HeartbeatQueued(events[..|events| - 1]))
  }

  predicate PingQueued(cmds: seq<Command>) {
    exists j :: 0 <= j < |cmds| && cmds[j].SendMessage? && cmds[j].origin == Heartbeat && cmds[j].message.IsRequest()
  }

  predicate RequestUnread(x: System)
    requires x.task.phase.Online?
  {
    exists i :: x.task.phase.read <= i < |Channel(x)| && Channel(x)[i].message.IsRequest()
  }

  /** The heartbeat token is somewhere on its way round the two loops. */
  predicate HeartbeatAlive(x: System) {
    x.client.status.Running? && x.task.phase.Online? ==>
      || x.task.phase.armed
      || HeartbeatQueued(x.events)
      || (Settled(x.events) && PingQueued(x.client.cmds))
      || RequestUnread(x)
  }

  /** The move lets the client take a heartbeat without knowing how to answer it. */
  predicate LosesHeartbeat(x: System, m: Move) {
    CanMove(x, m) && m.ClientTakesEvent? && x.events[0].HeartbeatTimeout? && x.client.version.None?
  }

  lemma {:induction false} HeartbeatAfterPop(events: seq<ConnEvent>)
    requires HeartbeatQueued(events)
    ensures HeartbeatQueued(events[1..]) || (events[0].HeartbeatTimeout? && Settled(events[1..]))
  {
    var n := |events| - 1;
    if n > 0 && !events[n].HeartbeatTimeout? {
      HeartbeatAfterPop(events[..n]);
      assert events[1..][..n - 1] == events[..n][1..];
    }
  }

  lemma HeartbeatAfterAppend(events: seq<ConnEvent>, e: ConnEvent)
    requires !e.Connected? && !e.Disconnected?
    ensures HeartbeatQueued(events + [e]) <==> HeartbeatQueued(events) || e.HeartbeatTimeout?
    ensures Settled(events + [e]) <==> Settled(events)
  {
    assert (events + [e])[..|events|] == events;
  }

  lemma PingAfterStep(lib: Library, s: State, a: Action)
    requires PingQueued(s.cmds) && !a.NextEvent? && Step(lib, s, a).status.Running?
    ensures
      var s' := Step(lib, s, a);
      || PingQueued(s'.cmds)
      || (s.cmds[0].SendMessage? && s.cmds[0].message.IsRequest()
          && s'.sent == s.sent + [Sent(s.cmds[0].message, s.cmds[0].origin, s.conn)])
  {
    var s' := Step(lib, s, a);
    var j :| 0 <= j < |s.cmds| && s.cmds[j].SendMessage?
             && s.cmds[j].origin == Heartbeat && s.cmds[j].message.IsRequest();
    if a.NextCommand? && Enabled(s, a) {
      if j > 0 { assert s'.cmds[j - 1] == s.cmds[j]; }
    } else {
      assert s'.cmds[j] == s.cmds[j];
    }
  }

  lemma HeartbeatAfterClient(lib: Library, x: System, a: Action)
    requires Synced(x) && HeartbeatAlive(x) && CanMove(x, ClientDoes(a))
    ensures HeartbeatAlive(MoveOn(lib, x, ClientDoes(a)))
  {
    var x' := MoveOn(lib, x, ClientDoes(a));
    ClientActionFacts(lib, x.client, a);
    if x'.client.status.Running? && x.task.phase.Online? && !x.task.phase.armed && !HeartbeatQueued(x.events) {
      assert Channel(x) <= Channel(x');
      if RequestUnread(x) {
        var i :| x.task.phase.read <= i < |Channel(x)| && Channel(x)[i].message.IsRequest();
        assert Channel(x')[i] == Channel(x)[i];
      } else {
        SettledFollows(x.client.conn, x.events);
        PingAfterStep(lib, x.client, a);
        if !PingQueued(x'.client.cmds) {
          assert Channel(x')[|Channel(x)|].message == x.client.cmds[0].message;
        }
      }
    }
  }

  lemma HeartbeatAfterTakesEvent(lib: Library, x: System)
    requires Synced(x) && HeartbeatAlive(x) && CanMove(x, ClientTakesEvent) && !LosesHeartbeat(x, ClientTakesEvent)
    ensures HeartbeatAlive(MoveOn(lib, x, ClientTakesEvent))
  {
    var e, x' := x.events[0], MoveOn(lib, x, ClientTakesEvent);
    EventFacts(lib, x.client, e);
    if x.task.phase.Online? && !x.task.phase.armed {
      if HeartbeatQueued(x.events) {
        HeartbeatAfterPop(x.events);
        if !HeartbeatQueued(x'.events) {
          var cmds := x'.client.cmds;
          assert cmds[|cmds| - 1] == SendMessage(Ping(x.client.version.value, x.client.nextId), Heartbeat);
        }
      } else {
        assert Settled(x.events);
        SettledFollows(x.client.conn, x.events);
        assert Settled(x'.events) && Channel(x') == Channel(x);
        if PingQueued(x.client.cmds) {
          var j :| 0 <= j < |x.client.cmds| && x.client.cmds[j].SendMessage?
                   && x.client.cmds[j].origin == Heartbeat && x.client.cmds[j].message.IsRequest();
          assert x'.client.cmds[j] == x.client.cmds[j];
        }
      }
    }
  }

  lemma HeartbeatAfterServe(lib: Library, x: System, input: Input)
    requires Synced(x) && HeartbeatAlive(x) && CanServe(x, input)
    ensures HeartbeatAlive(MoveOn(lib, x, TaskDoes(input)))
  {
    var x' := MoveOn(lib, x, TaskDoes(input));
    var sent := Serve(x.task, input).1;
    if x.client.status.Running? && x'.task.phase.Online? && !x'.task.phase.armed {
      if sent == [] {
        assert x'.events == x.events;
      } else {
        HeartbeatAfterAppend(x.events, sent[0]);
        assert x'.events == x.events + [sent[0]];
      }
      assert Channel(x') == Channel(x);
      if !HeartbeatQueued(x'.events) && RequestUnread(x) {
        var i :| x.task.phase.read <= i < |Channel(x)| && Channel(x)[i].message.IsRequest();
        assert x'.task.phase.read <= i;
        assert Channel(x')[i].message.IsRequest();
      }
    }
  }

  lemma HeartbeatAfterMove(lib: Library, x: System, m: Move)
    requires Synced(x) && HeartbeatAlive(x) && !LosesHeartbeat(x, m)
    ensures HeartbeatAlive(MoveOn(lib, x, m))
  {
    if CanMove(x, m) {
      match m
      case ClientDoes(a) => HeartbeatAfterClient(lib, x, a);
      case ClientTakesEvent => HeartbeatAfterTakesEvent(lib, x);
      case ClientSeesEnd =>
      case TaskDoes(input) => HeartbeatAfterServe(lib, x, input);
    }
  }

  /**
   * As long as the client knows the API version whenever it takes a heartbeat, the heartbeat of a served
   * connection never dies: its timer is armed, or its timeout is queued, or a ping is queued, or a request
   * waits in the connection's command channel.
   */
  lemma {:induction false} HeartbeatNeverDies(lib: Library, reconnects: bool, moves: seq<Move>)
    requires forall i :: 0 <= i < |moves| ==> !LosesHeartbeat(Reached(lib, reconnects, moves[..i]), moves[i])
    ensures HeartbeatAlive(Reached(lib, reconnects, moves))
  {
    if moves != [] {
      var n := |moves| - 1;
      assert forall i :: 0 <= i < n ==> moves[..n][..i] == moves[..i];
      HeartbeatNeverDies(lib, reconnects, moves[..n]);
      AlwaysSynced(lib, reconnects, moves[..n]);
      HeartbeatAfterMove(lib, Reached(lib, reconnects, moves[..n]), moves[n]);
    }
  }

  /** The client takes a heartbeat it cannot answer, and there is no other token. */
  predicate LosesLastToken(x: System, m: Move) {
    && LosesHeartbeat(x, m)
    && x.task.phase.Online? && !x.task.phase.armed
    && !HeartbeatQueued(x.events[1..])
    && !(Settled(x.events) && PingQueued(x.client.cmds))
    && !RequestUnread(x)
  }

  lemma HeartbeatMoveExactly(lib: Library, x: System, m: Move)
    requires Synced(x) && HeartbeatAlive(x)
    ensures HeartbeatAlive(MoveOn(lib, x, m)) <==> !LosesLastToken(x, m)
  {
    if LosesHeartbeat(x, m) {
      var x' := MoveOn(lib, x, m);
      assert x' == x.(events := x.events[1..]);
      assert Settled(x'.events) <==> Settled(x.events) by {
        assert forall i :: 0 < i < |x.events| ==> x.events[i] == x'.events[i - 1];
      }
      assert Channel(x') == Channel(x);
    } else {
      HeartbeatAfterMove(lib, x, m);
    }
  }

  lemma HeartbeatAfterPrefix(lib: Library, reconnects: bool, moves: seq<Move>, i: nat)
    requires i < |moves| && HeartbeatAlive(Reached(lib, reconnects, moves[..i]))
    ensures HeartbeatAlive(Reached(lib, reconnects, moves[..i + 1]))
       <==> !LosesLastToken(Reached(lib, reconnects, moves[..i]), moves[i])
  {
    assert moves[..i + 1] == moves[..i] + [moves[i]];
    OneMore(lib, reconnects, moves[..i], moves[i]);
    AlwaysSynced(lib, reconnects, moves[..i]);
    HeartbeatMoveExactly(lib, Reached(lib, reconnects, moves[..i]), moves[i]);
  }

  lemma {:induction false} HeartbeatAliveAt(lib: Library, reconnects: bool, moves: seq<Move>, i: nat)
    requires forall j :: 0 <= j < |moves| ==> !LosesLastToken(Reached(lib, reconnects, moves[..j]), moves[j])
    requires i <= |moves|
    ensures HeartbeatAlive(Reached(lib, reconnects, moves[..i]))
  {
    if i > 0 {
      HeartbeatAliveAt(lib, reconnects, moves, i - 1);
      HeartbeatAfterPrefix(lib, reconnects, moves, i - 1);
    }
  }

  /** On every run the heartbeat stays alive throughout exactly when no move loses the last token. */
  lemma HeartbeatAliveExactly(lib: Library, reconnects: bool, moves: seq<Move>)
    ensures (forall i :: 0 <= i <= |moves| ==> HeartbeatAlive(Reached(lib, reconnects, moves[..i])))
       <==> forall i :: 0 <= i < |moves| ==> !LosesLastToken(Reached(lib, reconnects, moves[..i]), moves[i])
  {
    if forall i :: 0 <= i <= |moves| ==> HeartbeatAlive(Reached(lib, reconnects, moves[..i])) {
      forall i | 0 <= i < |moves| ensures !LosesLastToken(Reached(lib, reconnects, moves[..i]), moves[i]) {
        HeartbeatAfterPrefix(lib, reconnects, moves, i);
      }
    }
    if forall i :: 0 <= i < |moves| ==> !LosesLastToken(Reached(lib, reconnects, moves[..i]), moves[i]) {
      forall i | 0 <= i <= |moves| ensures HeartbeatAlive(Reached(lib, reconnects, moves[..i])) {
        HeartbeatAliveAt(lib, reconnects, moves, i);
      }
    }
  }

  /** The request of a call on the version check's behalf is all that was ever written, and it waits for its answer. */
  predicate CheckUnanswered(x: System, request: Message) {
    && x.client.callers.issued == [request]
    && request.RequestId().Some? && request.RequestId().value in x.client.calls.pending
    && x.client.calls.pending[request.RequestId().value].caller == 0
    && x.task.written == [Written(request, 0, true)]
  }

  /** The connection is served, the client has nothing to do, and no token but the armed timer is about. */
  predicate Quiet(x: System) {
    && x.client.status.Running? && x.client.version.None? && x.client.cmds == [] && x.client.conn == Some(0)
    && x.events == [] && x.task.phase == Online(0, true, 1) && |HandedOver(x.client)| == 1
  }

  /** The version check has posted its call. */
  predicate CheckPosted(x: System, request: Message) {
    && x.client.status.Running? && x.client.version.None? && x.client.conn == Some(0)
    && x.client.cmds == [RpcCall(request, 0)] && x.client.callers.issued == [request]
    && x.client.sent == [] && x.client.mark == 0
    && x.events == [] && x.task.phase == Online(0, true, 0) && x.task.written == []
  }

  lemma CheckIsPosted(lib: Library, ls: Param)
    ensures exists moves :: CheckPosted(Reached(lib, true, moves), Request(Some(1), ".broker", "ls", ls))
  {
    var m1 := [TaskDoes(LoginSucceeds)];
    var m2 := m1 + [ClientTakesEvent];
    var m3 := m2 + [ClientDoes(DoRpcCall(".broker", "ls", ls))];
    OneMore(lib, true, [], TaskDoes(LoginSucceeds));
    assert [] + [TaskDoes(LoginSucceeds)] == m1;
    OneMore(lib, true, m1, ClientTakesEvent);
    OneMore(lib, true, m2, ClientDoes(DoRpcCall(".broker", "ls", ls)));
    assert Reached(lib, true, m2).client.nextId == 1;
    assert CheckPosted(Reached(lib, true, m3), Request(Some(1), ".broker", "ls", ls));
  }

  lemma CheckIsHandled(lib: Library, x: System, request: Message)
    requires CheckPosted(x, request) && request.IsRequest()
    ensures
      var x2 := MoveOn(lib, MoveOn(lib, x, ClientDoes(NextCommand)), ClientDoes(NextCommand));
      var x3 := MoveOn(lib, x2, TaskDoes(CommandArrives(request, true)));
      Quiet(x3) && CheckUnanswered(x3, request)
  {
    var x1 := MoveOn(lib, x, ClientDoes(NextCommand));
    assert x1.client.cmds == [SendMessage(request, FromCall)];
    var x2 := MoveOn(lib, x1, ClientDoes(NextCommand));
    assert x2.client.sent == [Sent(request, FromCall, Some(0))] && Settled(x2.events);
    assert Channel(x2)[0].message == request;
  }

  lemma CheckIsWritten(lib: Library, request: Message, moves: seq<Move>) returns (more: seq<Move>)
    requires CheckPosted(Reached(lib, true, moves), request) && request.IsRequest()
    ensures Quiet(Reached(lib, true, more)) && CheckUnanswered(Reached(lib, true, more), request)
  {
    CheckIsHandled(lib, Reached(lib, true, moves), request);
    OneMore(lib, true, moves, ClientDoes(NextCommand));
    OneMore(lib, true, moves + [ClientDoes(NextCommand)], ClientDoes(NextCommand));
    OneMore(lib, true, moves + [ClientDoes(NextCommand)] + [ClientDoes(NextCommand)],
            TaskDoes(CommandArrives(request, true)));
    more := moves + [ClientDoes(NextCommand)] + [ClientDoes(NextCommand)] + [TaskDoes(CommandArrives(request, true))];
  }

  lemma LostWhenQuiet(lib: Library, x: System, request: Message)
    requires Synced(x) && HeartbeatAlive(x) && Quiet(x) && CheckUnanswered(x, request)
    ensures
      var due := MoveOn(lib, x, TaskDoes(HeartbeatElapses));
      && LosesLastToken(due, ClientTakesEvent) && CheckUnanswered(due, request)
      && !HeartbeatAlive(MoveOn(lib, due, ClientTakesEvent))
      && CheckUnanswered(MoveOn(lib, due, ClientTakesEvent), request)
  {
    var due := MoveOn(lib, x, TaskDoes(HeartbeatElapses));
    assert due.events == [HeartbeatTimeout];
    SyncedAfterMove(lib, x, TaskDoes(HeartbeatElapses));
    HeartbeatMoveExactly(lib, due, ClientTakesEvent);
    assert MoveOn(lib, due, ClientTakesEvent).client == x.client;
  }

  /**
   * That happens: the request of the version check is written and its answer takes longer than the heartbeat
   * interval. The heartbeat taken meanwhile leaves nothing that would start another, and the check still waits.
   */
  lemma HeartbeatDiesDuringCheck(lib: Library, ls: Param)
    ensures exists moves ::
      var request := Request(Some(1), ".broker", "ls", ls);
      && LosesLastToken(Reached(lib, true, moves), ClientTakesEvent)
      && CheckUnanswered(Reached(lib, true, moves), request)
      && !HeartbeatAlive(Reached(lib, true, moves + [ClientTakesEvent]))
      && CheckUnanswered(Reached(lib, true, moves + [ClientTakesEvent]), request)
  {
    var request := Request(Some(1), ".broker", "ls", ls);
    CheckIsPosted(lib, ls);
    var posted :| CheckPosted(Reached(lib, true, posted), request);
    var written := CheckIsWritten(lib, request, posted);
    AlwaysSynced(lib, true, written);
    LostWhenQuiet(lib, Reached(lib, true, written), request);
    OneMore(lib, true, written, TaskDoes(HeartbeatElapses));
    OneMore(lib, true, written + [TaskDoes(HeartbeatElapses)], ClientTakesEvent);
  }

  lemma OneMore(lib: Library, reconnects: bool, moves: seq<Move>, m: Move)
    ensures Reached(lib, reconnects, moves + [m]) == MoveOn(lib, Reached(lib, reconnects, moves), m)
  {
    assert (moves + [m])[..|moves|] == moves;
  }
}
