/** The histories the state carries are what the actions of the run say. */
module HistoryTheorems {
  import opened Basics
  import opened Wire
  import opened Client

  // ------------------------------------------------------------ what callers did

  /** The messages the application posted, by the actions of the run. */
  function MessagesPosted(lib: Library, run: seq<Action>): seq<Message> {
    if run == [] then []
    else
      var before, a := run[..|run| - 1], run[|run| - 1];
      MessagesPosted(lib, before)
      + (if Enabled(After(lib, before), a) && a.DoSendMessage? then [a.message] else [])
  }

  /** The request of a call: with a new id from `do_rpc_call`, or as it is. */
  function RequestsOf(s: State, a: Action): seq<Message> {
    match a
    case DoRpcCall(path, rpcMethod, param) => [Request(Some(s.nextId), path, rpcMethod, param)]
    case RawRpcCall(request) => [request]
    case _ => []
  }

  /** The requests of the calls made, by the actions of the run. */
  function CallsMade(lib: Library, run: seq<Action>): seq<Message> {
    if run == [] then []
    else
      var before, a := run[..|run| - 1], run[|run| - 1];
      var s := After(lib, before);
      CallsMade(lib, before) + (if Enabled(s, a) then RequestsOf(s, a) else [])
  }

  /** The number of subscriptions made, which is the next id, and those of them not dropped yet. */
  function SubscriptionsMade(lib: Library, run: seq<Action>): nat {
    if run == [] then 0
    else
      var before, a := run[..|run| - 1], run[|run| - 1];
      SubscriptionsMade(lib, before) + (if Enabled(After(lib, before), a) && a.DoSubscribe? then 1 else 0)
  }

  function SubscribersLeft(lib: Library, run: seq<Action>): set<nat> {
    if run == [] then {}
    else
      var before, a := run[..|run| - 1], run[|run| - 1];
      var left := SubscribersLeft(lib, before);
      if !Enabled(After(lib, before), a) then left
      else if a.DoSubscribe? then left + {SubscriptionsMade(lib, before)}
      else if a.DropSubscriber? then left - {a.sub}
      else left
  }

  lemma SubscribersStep(lib: Library, s: State, a: Action)
    requires Enabled(s, a)
    ensures
      var c, c' := s.callers, Step(lib, s, a).callers;
      && c'.nextSub == c.nextSub + (if a.DoSubscribe? then 1 else 0)
      && c'.alive == if a.DoSubscribe? then c.alive + {c.nextSub}
                     else if a.DropSubscriber? then c.alive - {a.sub} else c.alive
  {
  }

  /** Ids are given out in turn, and a subscriber is dropped at most once. */
  lemma {:induction false} SubscribersAreTheRun(lib: Library, run: seq<Action>)
    ensures After(lib, run).callers.nextSub == SubscriptionsMade(lib, run)
    ensures After(lib, run).callers.alive == SubscribersLeft(lib, run)
  {
    if run != [] {
      var before, a := run[..|run| - 1], run[|run| - 1];
      SubscribersAreTheRun(lib, before);
      if Enabled(After(lib, before), a) {
        SubscribersStep(lib, After(lib, before), a);
      }
    }
  }

  lemma CallersStep(lib: Library, s: State, a: Action)
    requires Enabled(s, a)
    ensures Step(lib, s, a).callers.posted == s.callers.posted + (if a.DoSendMessage? then [a.message] else [])
    ensures Step(lib, s, a).callers.issued == s.callers.issued + RequestsOf(s, a)
  {
    assert s.callers.posted + [] == s.callers.posted && s.callers.issued + [] == s.callers.issued;
  }

  lemma {:induction false} HistoriesAreTheRun(lib: Library, run: seq<Action>)
    ensures After(lib, run).callers.posted == MessagesPosted(lib, run)
    ensures After(lib, run).callers.issued == CallsMade(lib, run)
  {
    if run != [] {
      var before, a := run[..|run| - 1], run[|run| - 1];
      HistoriesAreTheRun(lib, before);
      if Enabled(After(lib, before), a) {
        CallersStep(lib, After(lib, before), a);
      }
    }
  }

  // --------------------------------------------------------- the command channel

  /** The command a caller's action puts into the channel. */
  function CommandsOf(s: State, a: Action): seq<Command> {
    match a
    case DoRpcCall(path, rpcMethod, param) =>
      [RpcCall(Request(Some(s.nextId), path, rpcMethod, param), |s.callers.issued|)]
    case RawRpcCall(request) => [RpcCall(request, |s.callers.issued|)]
    case DoSendMessage(message) => [SendMessage(message, Application)]
    case DoSubscribe(ri) => [Subscribe(ri, s.callers.nextSub)]
    case DropSubscriber(sub) => [Unsubscribe(sub)]
    case DoTerminate => [TerminateClient]
    case _ => []
  }

  /** Commands of callers, as opposed to messages the loop posts to itself. */
  function CallersPart(c: Command): seq<Command> {
    if c.SendMessage? && c.origin != Application then [] else [c]
  }

  function CommandsPosted(lib: Library, run: seq<Action>): seq<Command> {
    if run == [] then []
    else
      var before, a := run[..|run| - 1], run[|run| - 1];
      var s := After(lib, before);
      CommandsPosted(lib, before) + (if Enabled(s, a) then CommandsOf(s, a) else [])
  }

  function CommandsHandled(lib: Library, run: seq<Action>): seq<Command> {
    if run == [] then []
    else
      var before, a := run[..|run| - 1], run[|run| - 1];
      var s := After(lib, before);
      CommandsHandled(lib, before) + (if Enabled(s, a) && a.NextCommand? then CallersPart(s.cmds[0]) else [])
  }

  lemma CallersAppend(lib: Library, s: State, a: Action)
    requires Enabled(s, a) && a.CallersOwn()
    ensures Step(lib, s, a).cmds == s.cmds + CommandsOf(s, a) && |CommandsOf(s, a)| == 1
    ensures CallersPart(CommandsOf(s, a)[0]) == CommandsOf(s, a)
  {
  }

  /** What the loop itself adds to the queue is no command of a caller. */
  predicate AddsOwn(cmds: seq<Command>, cmds': seq<Command>) {
    cmds' == cmds || (|cmds'| == |cmds| + 1 && cmds' == cmds + [cmds'[|cmds|]] && CallersPart(cmds'[|cmds|]) == [])
  }

  lemma CommandAddsOwn(lib: Library, s: State)
    requires s.cmds != []
    ensures AddsOwn(s.cmds[1..], HandleCommand(lib, s).cmds)
  {
  }

  lemma OthersAddOwn(lib: Library, s: State, a: Action)
    requires Enabled(s, a) && !a.CallersOwn() && !a.NextCommand?
    ensures AddsOwn(s.cmds, Step(lib, s, a).cmds) && CommandsOf(s, a) == []
  {
  }

  lemma OwnIsNotCallers(cmds: seq<Command>, cmds': seq<Command>)
    requires AddsOwn(cmds, cmds')
    ensures Collect(cmds', CallersPart) == Collect(cmds, CallersPart)
  {
    if cmds' != cmds {
      CollectAppend(cmds, cmds'[|cmds|], CallersPart);
      assert Collect(cmds, CallersPart) + [] == Collect(cmds, CallersPart);
    }
  }

  /** A step takes the first command of a caller off, or adds one at the end, or leaves them alone. */
  lemma QueueStep(lib: Library, s: State, a: Action)
    requires Enabled(s, a)
    ensures (if a.NextCommand? then CallersPart(s.cmds[0]) else []) + Collect(Step(lib, s, a).cmds, CallersPart)
         == Collect(s.cmds, CallersPart) + CommandsOf(s, a)
  {
    var waiting := Collect(s.cmds, CallersPart);
    assert waiting + [] == waiting && [] + waiting == waiting;
    if a.NextCommand? {
      CommandAddsOwn(lib, s);
      OwnIsNotCallers(s.cmds[1..], HandleCommand(lib, s).cmds);
    } else if a.CallersOwn() {
      CallersAppend(lib, s, a);
      CollectAppend(s.cmds, CommandsOf(s, a)[0], CallersPart);
    } else {
      OthersAddOwn(lib, s, a);
      OwnIsNotCallers(s.cmds, Step(lib, s, a).cmds);
    }
  }

  /** On every run the commands handled, then those queued, are exactly the ones the callers posted, in that order. */
  lemma {:induction false} CommandsAreHandledInOrder(lib: Library, run: seq<Action>)
    ensures CommandsHandled(lib, run) + Collect(After(lib, run).cmds, CallersPart) == CommandsPosted(lib, run)
  {
    if run != [] {
      var before, a := run[..|run| - 1], run[|run| - 1];
      var s := After(lib, before);
      CommandsAreHandledInOrder(lib, before);
      if Enabled(s, a) {
        QueueStep(lib, s, a);
        Regroup(CommandsHandled(lib, before), if a.NextCommand? then CallersPart(s.cmds[0]) else [],
                Collect(Step(lib, s, a).cmds, CallersPart), Collect(s.cmds, CallersPart), CommandsOf(s, a));
      } else {
        assert CommandsHandled(lib, before) + [] == CommandsHandled(lib, before);
        assert CommandsPosted(lib, before) + [] == CommandsPosted(lib, before);
      }
    }
  }

  lemma Regroup(handled: seq<Command>, first: seq<Command>, rest: seq<Command>,
                waiting: seq<Command>, posted: seq<Command>)
    requires first + rest == waiting + posted
    ensures handled + first + rest == handled + waiting + posted
  {
    assert handled + first + rest == handled + (first + rest);
    assert handled + waiting + posted == handled + (waiting + posted);
  }

  // ------------------------------------------------------------ client events

  /** What the application is told about a connection event or a version result. */
  function AnnouncementOf(a: Action): seq<ClientEvent> {
    match a
    case NextEvent(ConnectionFailed(kind)) => [EventFailed(kind)]
    case NextEvent(Disconnected) => [EventDisconnected]
    case VersionResult(Some(version)) => [EventConnected(version)]
    case VersionResult(None) => [EventFailed(NetworkError)]
    case _ => []
  }

  function Announcements(lib: Library, run: seq<Action>): seq<ClientEvent> {
    if run == [] then []
    else
      var before, a := run[..|run| - 1], run[|run| - 1];
      Announcements(lib, before) + (if Enabled(After(lib, before), a) then AnnouncementOf(a) else [])
  }

  /** The version the last successful check found. */
  function LatestVersion(lib: Library, run: seq<Action>): Option<ApiVersion> {
    if run == [] then None
    else
      var before, a := run[..|run| - 1], run[|run| - 1];
      if Enabled(After(lib, before), a) && a.VersionResult? && a.result.Some? then a.result
      else LatestVersion(lib, before)
  }

  lemma AnnouncementStep(lib: Library, s: State, a: Action)
    requires Enabled(s, a)
    ensures Step(lib, s, a).out.events == s.out.events + AnnouncementOf(a)
    ensures Step(lib, s, a).version == if a.VersionResult? && a.result.Some? then a.result else s.version
  {
    assert s.out.events + [] == s.out.events;
  }

  /** On every run the application is told of each of these once, in order, and the version is the latest found. */
  lemma {:induction false} EventsAreAnnounced(lib: Library, run: seq<Action>)
    ensures After(lib, run).out.events == Announcements(lib, run)
    ensures After(lib, run).version == LatestVersion(lib, run)
  {
    if run != [] {
      var before, a := run[..|run| - 1], run[|run| - 1];
      EventsAreAnnounced(lib, before);
      if Enabled(After(lib, before), a) {
        AnnouncementStep(lib, After(lib, before), a);
      }
    }
  }
}
