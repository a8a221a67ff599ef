/** The command queue, into which the loop also posts to itself: order of messages, and termination of draining. */
module QueueTheorems {
  import opened Basics
  import opened Wire
  import opened Client
  import ClientNode
  import HistoryTheorems

  /** The requests of the first calls with a request id, in issue order. */
  function Identified(issued: seq<Message>): seq<Message> {
    if issued == [] then []
    else
      var last := issued[|issued| - 1];
      Identified(issued[..|issued| - 1]) + (if last.RequestId().Some? then [last] else [])
  }

  lemma IdentifiedAppend(issued: seq<Message>, m: Message)
    ensures Identified(issued + [m]) == Identified(issued) + (if m.RequestId().Some? then [m] else [])
  {
    assert (issued + [m])[..|issued|] == issued;
  }

  /** Call requests: those handed over or dropped, then those queued for sending, then those not handled yet. */
  function CallsInOrder(cmds: seq<Command>, sent: seq<Sent>): seq<Message> {
    SentBy(sent, FromCall) + Queued(cmds, FromCall) + Collect(cmds, IdentifiedCallOf)
  }

  function DirectInOrder(cmds: seq<Command>, sent: seq<Sent>): seq<Message> {
    SentBy(sent, Application) + Queued(cmds, Application)
  }

  /** Commands the loop posts on behalf of others leave both orders alone. */
  lemma AppendOther(cmds: seq<Command>, sent: seq<Sent>, c: Command)
    requires !c.RpcCall? && (c.SendMessage? ==> c.origin != FromCall && c.origin != Application)
    ensures CallsInOrder(cmds + [c], sent) == CallsInOrder(cmds, sent)
    ensures DirectInOrder(cmds + [c], sent) == DirectInOrder(cmds, sent)
  {
    QueuedAppend(cmds, c, FromCall);
    QueuedAppend(cmds, c, Application);
    CollectAppend(cmds, c, IdentifiedCallOf);
    assert Queued(cmds, FromCall) + [] == Queued(cmds, FromCall);
    assert Queued(cmds, Application) + [] == Queued(cmds, Application);
    assert Collect(cmds, IdentifiedCallOf) + [] == Collect(cmds, IdentifiedCallOf);
  }

  lemma AppendCall(cmds: seq<Command>, sent: seq<Sent>, c: Command)
    requires c.RpcCall?
    ensures CallsInOrder(cmds + [c], sent) == CallsInOrder(cmds, sent) + IdentifiedCallOf(c)
    ensures DirectInOrder(cmds + [c], sent) == DirectInOrder(cmds, sent)
  {
    QueuedAppend(cmds, c, FromCall);
    QueuedAppend(cmds, c, Application);
    CollectAppend(cmds, c, IdentifiedCallOf);
    assert Queued(cmds, FromCall) + [] == Queued(cmds, FromCall);
    assert Queued(cmds, Application) + [] == Queued(cmds, Application);
  }

  lemma AppendDirect(cmds: seq<Command>, sent: seq<Sent>, message: Message)
    ensures CallsInOrder(cmds + [SendMessage(message, Application)], sent) == CallsInOrder(cmds, sent)
    ensures DirectInOrder(cmds + [SendMessage(message, Application)], sent) == DirectInOrder(cmds, sent) + [message]
  {
    var c := SendMessage(message, Application);
    QueuedAppend(cmds, c, FromCall);
    QueuedAppend(cmds, c, Application);
    CollectAppend(cmds, c, IdentifiedCallOf);
    assert Queued(cmds, FromCall) + [] == Queued(cmds, FromCall);
    assert Collect(cmds, IdentifiedCallOf) + [] == Collect(cmds, IdentifiedCallOf);
  }

  /** A SendMessage command moves its message from the queue to what was sent. */
  lemma SendKeepsOrder(cmds: seq<Command>, sent: seq<Sent>, over: Option<nat>)
    requires cmds != [] && cmds[0].SendMessage?
    ensures
      var x := Sent(cmds[0].message, cmds[0].origin, over);
      && CallsInOrder(cmds[1..], sent + [x]) == CallsInOrder(cmds, sent)
      && DirectInOrder(cmds[1..], sent + [x]) == DirectInOrder(cmds, sent)
  {
    var waiting := Collect(cmds[1..], IdentifiedCallOf);
    SendMoves(cmds, sent, over, FromCall);
    SendMoves(cmds, sent, over, Application);
    assert Collect(cmds, IdentifiedCallOf) == [] + waiting;
    assert [] + waiting == waiting;
  }

  lemma PopKeepsOrder(cmds: seq<Command>, sent: seq<Sent>)
    requires cmds != [] && !cmds[0].SendMessage? && IdentifiedCallOf(cmds[0]) == []
    ensures CallsInOrder(cmds[1..], sent) == CallsInOrder(cmds, sent)
    ensures DirectInOrder(cmds[1..], sent) == DirectInOrder(cmds, sent)
  {
    assert [] + Collect(cmds[1..], IdentifiedCallOf) == Collect(cmds[1..], IdentifiedCallOf);
    assert [] + Queued(cmds[1..], FromCall) == Queued(cmds[1..], FromCall);
    assert [] + Queued(cmds[1..], Application) == Queued(cmds[1..], Application);
  }

  /** A call's request goes to the back of the queue, but no other call request is in front of it there. */
  lemma CallKeepsOrder(cmds: seq<Command>, sent: seq<Sent>)
    requires cmds != [] && cmds[0].RpcCall? && cmds[0].request.RequestId().Some?
    ensures
      var c := SendMessage(cmds[0].request, FromCall);
      && CallsInOrder(cmds[1..] + [c], sent) == CallsInOrder(cmds, sent)
      && DirectInOrder(cmds[1..] + [c], sent) == DirectInOrder(cmds, sent)
  {
    var rest, request := cmds[1..], cmds[0].request;
    var c := SendMessage(request, FromCall);
    var waiting := Collect(rest, IdentifiedCallOf);
    QueuedAppend(rest, c, FromCall);
    QueuedAppend(rest, c, Application);
    CollectAppend(rest, c, IdentifiedCallOf);
    assert SentBy(sent, FromCall) + Queued(rest, FromCall) + ([request] + waiting)
        == SentBy(sent, FromCall) + (Queued(rest, FromCall) + [request]) + waiting;
    assert waiting + [] == waiting;
    assert [] + Queued(rest, FromCall) == Queued(rest, FromCall);
    assert [] + Queued(rest, Application) == Queued(rest, Application);
    assert Queued(rest, Application) + [] == Queued(rest, Application);
  }

  lemma SubscriptionsKeepOrder(lib: Library, s: State, ri: Ri, sub: nat)
    ensures
      var s' := HandleSubscribe(lib, s, ri, sub);
      CallsInOrder(s'.cmds, s'.sent) == CallsInOrder(s.cmds, s.sent)
      && DirectInOrder(s'.cmds, s'.sent) == DirectInOrder(s.cmds, s.sent)
  {
    var cmds := HandleSubscribe(lib, s, ri, sub).cmds;
    if cmds != s.cmds { AppendOther(s.cmds, s.sent, cmds[|s.cmds|]); }
  }

  lemma UnsubscribesKeepOrder(s: State, sub: nat)
    ensures
      var s' := HandleUnsubscribe(s, sub);
      CallsInOrder(s'.cmds, s'.sent) == CallsInOrder(s.cmds, s.sent)
      && DirectInOrder(s'.cmds, s'.sent) == DirectInOrder(s.cmds, s.sent)
  {
    var cmds := HandleUnsubscribe(s, sub).cmds;
    if cmds != s.cmds { AppendOther(s.cmds, s.sent, cmds[|s.cmds|]); }
  }

  /** Handling a command moves it along without overtaking: both orders stay as they are. */
  lemma CommandKeepsOrder(lib: Library, s: State)
    requires s.cmds != []
    ensures
      var s' := HandleCommand(lib, s);
      && CallsInOrder(s'.cmds, s'.sent) == CallsInOrder(s.cmds, s.sent)
      && DirectInOrder(s'.cmds, s'.sent) == DirectInOrder(s.cmds, s.sent)
  {
    match s.cmds[0]
    case SendMessage(_, _) => SendKeepsOrder(s.cmds, s.sent, s.conn);
    case RpcCall(request, _) =>
      if request.RequestId().Some? { CallKeepsOrder(s.cmds, s.sent); } else { PopKeepsOrder(s.cmds, s.sent); }
    case Subscribe(ri, sub) =>
      PopKeepsOrder(s.cmds, s.sent);
      SubscriptionsKeepOrder(lib, Pop(s), ri, sub);
    case Unsubscribe(sub) =>
      PopKeepsOrder(s.cmds, s.sent);
      UnsubscribesKeepOrder(Pop(s), sub);
    case TerminateClient => PopKeepsOrder(s.cmds, s.sent);
  }

  ghost predicate InOrder(s: State) {
    CallsInOrder(s.cmds, s.sent) == Identified(s.callers.issued) && DirectInOrder(s.cmds, s.sent) == s.callers.posted
  }

  lemma FrameKeepsOrder(lib: Library, s: State, frame: Frame)
    requires InOrder(s)
    ensures InOrder(HandleFrame(lib, s, frame))
  {
    match frame
    case RequestFrame(id, _, _, _, _, _) =>
      var outcome := ClientNode.Route(lib, frame);
      if outcome.Answer? { AppendOther(s.cmds, s.sent, SendMessage(Response(Some(id), outcome.body), Reply)); }
    case ResponseFrame(id, body) =>
      if id.Some? && body.None? { AppendOther(s.cmds, s.sent, SendMessage(Response(id, Error(ParseError)), Reply)); }
    case _ =>
  }

  lemma InOrderAfterEvent(lib: Library, s: State, event: ConnEvent)
    requires InOrder(s)
    ensures InOrder(HandleEvent(lib, s, event))
  {
    match event
    case RpcFrameReceived(frame) => FrameKeepsOrder(lib, s, frame);
    case HeartbeatTimeout =>
      if s.version.Some? { AppendOther(s.cmds, s.sent, SendMessage(Ping(s.version.value, s.nextId), Heartbeat)); }
    case _ =>
  }

  lemma InOrderAfterIssue(s: State, request: Message)
    requires InOrder(s)
    ensures InOrder(IssueCall(s, request))
  {
    AppendCall(s.cmds, s.sent, RpcCall(request, |s.callers.issued|));
    IdentifiedAppend(s.callers.issued, request);
  }

  lemma InOrderAfterSendDirect(s: State, message: Message)
    requires InOrder(s)
    ensures InOrder(Post(s.(callers := s.callers.(posted := s.callers.posted + [message])), message, Application))
  {
    AppendDirect(s.cmds, s.sent, message);
  }

  lemma InOrderAfterCaller(lib: Library, s: State, a: Action)
    requires InOrder(s) && a.CallersOwn() && Enabled(s, a)
    ensures InOrder(Next(lib, s, a))
  {
    match a
    case DoRpcCall(path, rpcMethod, param) =>
      InOrderAfterIssue(s.(nextId := s.nextId + 1), Request(Some(s.nextId), path, rpcMethod, param));
    case RawRpcCall(request) => InOrderAfterIssue(s, request);
    case DoSendMessage(message) => InOrderAfterSendDirect(s, message);
    case DoSubscribe(ri) => AppendOther(s.cmds, s.sent, Subscribe(ri, s.callers.nextSub));
    case DropSubscriber(sub) => AppendOther(s.cmds, s.sent, Unsubscribe(sub));
    case DoTerminate => AppendOther(s.cmds, s.sent, TerminateClient);
  }

  lemma InOrderAfterStep(lib: Library, s: State, a: Action)
    requires InOrder(s)
    ensures InOrder(Step(lib, s, a))
  {
    if Enabled(s, a) {
      if a.CallersOwn() {
        InOrderAfterCaller(lib, s, a);
      } else if a.NextCommand? {
        CommandKeepsOrder(lib, s);
      } else if a.NextEvent? {
        InOrderAfterEvent(lib, s, a.event);
      }
    }
  }

  lemma {:induction false} InOrderAlways(lib: Library, run: seq<Action>)
    ensures InOrder(After(lib, run))
  {
    if run != [] {
      InOrderAlways(lib, run[..|run| - 1]);
      InOrderAfterStep(lib, After(lib, run[..|run| - 1]), run[|run| - 1]);
    }
  }

  /**
   * On every run the call requests handled for sending (handed over, or dropped for want of a connection), then
   * those queued for sending, then those of calls not handled yet, are exactly the requests of the calls made, in
   * that order; and the application's own messages, handled and then queued, are exactly those it posted.
   */
  lemma MessagesKeepIssueOrder(lib: Library, run: seq<Action>)
    ensures
      var s := After(lib, run);
      && SentBy(s.sent, FromCall) + Queued(s.cmds, FromCall) + Collect(s.cmds, IdentifiedCallOf)
         == Identified(HistoryTheorems.CallsMade(lib, run))
      && SentBy(s.sent, Application) + Queued(s.cmds, Application) == HistoryTheorems.MessagesPosted(lib, run)
    ensures SentBy(After(lib, run).sent, FromCall) <= Identified(HistoryTheorems.CallsMade(lib, run))
    ensures SentBy(After(lib, run).sent, Application) <= HistoryTheorems.MessagesPosted(lib, run)
  {
    InOrderAlways(lib, run);
    HistoryTheorems.HistoriesAreTheRun(lib, run);
  }

  /** What was handed to one connection. */
  function SentOver(sent: seq<Sent>, conn: nat): seq<Sent> {
    if sent == [] then []
    else
      var last := sent[|sent| - 1];
      SentOver(sent[..|sent| - 1], conn) + (if last.over == Some(conn) then [last] else [])
  }

  lemma SentOverAppend(sent: seq<Sent>, x: Sent, conn: nat)
    ensures SentOver(sent + [x], conn)
         == if x.over == Some(conn) then SentOver(sent, conn) + [x] else SentOver(sent, conn)
  {
    assert (sent + [x])[..|sent|] == sent;
  }

  /** `a` is `b` with some elements left out: `at` says where each of its elements is in `b`. */
  ghost predicate PickedFrom(a: seq<Message>, b: seq<Message>, at: seq<nat>) {
    && |at| == |a|
    && (forall i :: 0 <= i < |a| ==> at[i] < |b| && a[i] == b[at[i]])
    && (forall i, j :: 0 <= i < j < |a| ==> at[i] < at[j])
  }

  ghost predicate Subsequence(a: seq<Message>, b: seq<Message>) {
    exists at :: PickedFrom(a, b, at)
  }

  lemma PickOneMore(a: seq<Message>, b: seq<Message>, at: seq<nat>, x: Message)
    requires PickedFrom(a, b, at)
    ensures PickedFrom(a + [x], b + [x], at + [|b|])
  {
  }

  lemma PickFromMore(a: seq<Message>, b: seq<Message>, b': seq<Message>, at: seq<nat>)
    requires PickedFrom(a, b, at) && b <= b'
    ensures PickedFrom(a, b', at)
  {
  }

  lemma PrefixIsPicked(a: seq<Message>, a': seq<Message>, b: seq<Message>)
    requires a' <= a && Subsequence(a, b)
    ensures Subsequence(a', b)
  {
    var at :| PickedFrom(a, b, at);
    assert PickedFrom(a', b, at[..|a'|]);
  }

  lemma {:induction false} SentOverIsPicked(sent: seq<Sent>, conn: nat, origin: Origin) returns (at: seq<nat>)
    ensures PickedFrom(SentBy(SentOver(sent, conn), origin), SentBy(sent, origin), at)
  {
    if sent == [] {
      return [];
    }
    var init, x := sent[..|sent| - 1], sent[|sent| - 1];
    at := SentOverIsPicked(init, conn, origin);
    assert init + [x] == sent;
    SentOverAppend(init, x, conn);
    SentAppend(init, x, origin);
    var a, b := SentBy(SentOver(init, conn), origin), SentBy(init, origin);
    if x.over == Some(conn) {
      SentAppend(SentOver(init, conn), x, origin);
    }
    if x.over == Some(conn) && x.origin == origin {
      PickOneMore(a, b, at, x.message);
      at := at + [|b|];
    } else {
      PickFromMore(a, b, SentBy(sent, origin), at);
      assert a + [] == a;
      assert SentBy(SentOver(sent, conn), origin) == a;
    }
  }

  /** On every run the call requests handed to any one connection are in issue order, and so are direct messages. */
  lemma EachConnectionKeepsIssueOrder(lib: Library, run: seq<Action>, conn: nat)
    ensures
      var s := After(lib, run);
      && Subsequence(SentBy(SentOver(s.sent, conn), FromCall), Identified(HistoryTheorems.CallsMade(lib, run)))
      && Subsequence(SentBy(SentOver(s.sent, conn), Application), HistoryTheorems.MessagesPosted(lib, run))
  {
    var s := After(lib, run);
    MessagesKeepIssueOrder(lib, run);
    var calls := SentOverIsPicked(s.sent, conn, FromCall);
    PickFromMore(SentBy(SentOver(s.sent, conn), FromCall), SentBy(s.sent, FromCall),
                 Identified(HistoryTheorems.CallsMade(lib, run)), calls);
    var direct := SentOverIsPicked(s.sent, conn, Application);
    PickFromMore(SentBy(SentOver(s.sent, conn), Application), SentBy(s.sent, Application),
                 HistoryTheorems.MessagesPosted(lib, run), direct);
  }

  /** What is handed over goes over the connection in use; what is handled without one goes nowhere. */
  ghost predicate OverThisConnection(s: State) {
    s.mark <= |s.sent| && (s.conn.Some? ==> forall i :: s.mark <= i < |s.sent| ==> s.sent[i].over == s.conn)
  }

  lemma OverThisConnectionAfterStep(lib: Library, s: State, a: Action)
    requires OverThisConnection(s)
    ensures OverThisConnection(Step(lib, s, a))
  {
  }

  lemma {:induction false} HandedOverToThisConnection(lib: Library, run: seq<Action>)
    ensures forall x :: x in HandedOver(After(lib, run)) ==> x.over == After(lib, run).conn && x.over.Some?
    ensures OverThisConnection(After(lib, run))
  {
    if run != [] {
      HandedOverToThisConnection(lib, run[..|run| - 1]);
      OverThisConnectionAfterStep(lib, After(lib, run[..|run| - 1]), run[|run| - 1]);
    }
  }

  // ---------------------------------------------------------------- draining

  function WeightOf(c: Command): nat { if c.SendMessage? || c.TerminateClient? then 1 else 2 }

  function Weight(cmds: seq<Command>): nat {
    if cmds == [] then 0 else WeightOf(cmds[0]) + Weight(cmds[1..])
  }

  lemma {:induction false} WeightAppend(cmds: seq<Command>, c: Command)
    ensures Weight(cmds + [c]) == Weight(cmds) + WeightOf(c)
  {
    if cmds == [] {
      assert Weight([c]) == WeightOf(c) + Weight([]);
    } else {
      WeightAppend(cmds[1..], c);
      assert (cmds + [c])[1..] == cmds[1..] + [c];
    }
  }

  lemma CommandLosesWeight(lib: Library, s: State)
    requires s.cmds != []
    ensures Weight(HandleCommand(lib, s).cmds) < Weight(s.cmds)
  {
    var cmds := HandleCommand(lib, s).cmds;
    if cmds != s.cmds[1..] {
      WeightAppend(s.cmds[1..], cmds[|s.cmds| - 1]);
    }
  }

  /** Handling commands with nothing else happening, until the queue is empty or the loop has ended. */
  function Drain(lib: Library, s: State): State
    decreases Weight(s.cmds)
  {
    if !s.status.Running? || s.cmds == [] then s
    else
      CommandLosesWeight(lib, s);
      Drain(lib, HandleCommand(lib, s))
  }

  /** Messages a command is bound to send, and may send at most. */
  function Must(cmds: seq<Command>): nat {
    if cmds == [] then 0
    else (if cmds[0].SendMessage? || IdentifiedCallOf(cmds[0]) != [] then 1 else 0) + Must(cmds[1..])
  }

  function May(cmds: seq<Command>): nat {
    if cmds == [] then 0
    else (if cmds[0].TerminateClient? || (cmds[0].RpcCall? && IdentifiedCallOf(cmds[0]) == []) then 0 else 1)
         + May(cmds[1..])
  }

  lemma {:induction false} CountAppendMessage(cmds: seq<Command>, message: Message, origin: Origin)
    ensures Must(cmds + [SendMessage(message, origin)]) == Must(cmds) + 1
    ensures May(cmds + [SendMessage(message, origin)]) == May(cmds) + 1
  {
    var c := SendMessage(message, origin);
    if cmds == [] {
      assert Must([c]) == 1 + Must([]) && May([c]) == 1 + May([]);
    } else {
      CountAppendMessage(cmds[1..], message, origin);
      assert (cmds + [c])[1..] == cmds[1..] + [c];
    }
  }

  lemma SubscriptionsKeepCounts(lib: Library, s: State, ri: Ri, sub: nat)
    ensures
      var s' := HandleSubscribe(lib, s, ri, sub);
      s'.sent == s.sent && Must(s.cmds) <= Must(s'.cmds) && May(s'.cmds) <= May(s.cmds) + 1
    ensures
      var s' := HandleUnsubscribe(s, sub);
      s'.sent == s.sent && Must(s.cmds) <= Must(s'.cmds) && May(s'.cmds) <= May(s.cmds) + 1
  {
    var cmds, cmds' := HandleSubscribe(lib, s, ri, sub).cmds, HandleUnsubscribe(s, sub).cmds;
    if cmds != s.cmds { CountAppendMessage(s.cmds, cmds[|s.cmds|].message, cmds[|s.cmds|].origin); }
    if cmds' != s.cmds { CountAppendMessage(s.cmds, cmds'[|s.cmds|].message, cmds'[|s.cmds|].origin); }
  }

  lemma CommandKeepsCounts(lib: Library, s: State)
    requires s.cmds != []
    ensures
      var s' := HandleCommand(lib, s);
      |s.sent| + Must(s.cmds) <= |s'.sent| + Must(s'.cmds) && |s'.sent| + May(s'.cmds) <= |s.sent| + May(s.cmds)
  {
    match s.cmds[0]
    case RpcCall(request, _) =>
      if request.RequestId().Some? { CountAppendMessage(s.cmds[1..], request, FromCall); }
    case Subscribe(ri, sub) => SubscriptionsKeepCounts(lib, Pop(s), ri, sub);
    case Unsubscribe(sub) => SubscriptionsKeepCounts(lib, Pop(s), Ri("", "", None), sub);
    case _ =>
  }

  /**
   * Draining ends with an empty queue unless the loop itself ends. On the way each message and each call with
   * an id sends one message, each Subscribe and Unsubscribe at most one, and nothing overtakes anything.
   */
  lemma {:induction false} DrainSendsEverythingInOrder(lib: Library, s: State)
    requires Drain(lib, s).status.Running?
    ensures
      var d := Drain(lib, s);
      && d.cmds == []
      && |s.sent| + Must(s.cmds) <= |d.sent| <= |s.sent| + May(s.cmds)
      && SentBy(d.sent, FromCall) == CallsInOrder(s.cmds, s.sent)
      && SentBy(d.sent, Application) == DirectInOrder(s.cmds, s.sent)
    decreases Weight(s.cmds)
  {
    if s.status.Running? && s.cmds != [] {
      CommandLosesWeight(lib, s);
      var s' := HandleCommand(lib, s);
      DrainSendsEverythingInOrder(lib, s');
      CommandKeepsOrder(lib, s);
      CommandKeepsCounts(lib, s);
    }
  }
}
