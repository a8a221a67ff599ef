/** What every reachable state of the client loop keeps. */
module ClientSafety {
  import opened Basics
  import opened Wire
  import opened Client
  import Calls = RpcCalls
  import Subs = Subscriptions
  import ClientNode

  ghost predicate QueueMatchesIssued(s: State) {
    forall k :: 0 <= k < |s.cmds| && s.cmds[k].RpcCall? ==>
      s.cmds[k].caller < |s.callers.issued| && s.cmds[k].request == s.callers.issued[s.cmds[k].caller]
  }

  ghost predicate Inv(s: State) {
    && Calls.Good(s.calls, s.callers.issued, WaitingCalls(s))
    && Subs.Good(s.subs, WaitingSubs(s), s.callers.nextSub)
    && QueueMatchesIssued(s)
    && (s.subs.table != [] ==> s.version.Some?)
    && (forall q :: q in s.subs.requests ==> q < s.nextId)
    && s.mark <= |s.sent|
  }

  lemma AppendKeepsWaiting(s: State, c: Command)
    ensures Collect(s.cmds + [c], CallerOf) == WaitingCalls(s) + CallerOf(c)
    ensures Collect(s.cmds + [c], SubscriptionOf) == WaitingSubs(s) + SubscriptionOf(c)
  {
    CollectAppend(s.cmds, c, CallerOf);
    CollectAppend(s.cmds, c, SubscriptionOf);
  }

  /** Posting anything but a call or a subscription. */
  lemma InvAfterAppend(s: State, c: Command)
    requires Inv(s) && !c.RpcCall? && !c.Subscribe?
    ensures Inv(s.(cmds := s.cmds + [c]))
  {
    AppendKeepsWaiting(s, c);
    assert WaitingCalls(s) + [] == WaitingCalls(s) && WaitingSubs(s) + [] == WaitingSubs(s);
  }

  lemma QueueGrows(s: State, s': State, c: Command)
    requires QueueMatchesIssued(s) && s'.cmds == s.cmds + [c] && s.callers.issued <= s'.callers.issued
    requires c.RpcCall? ==> c.caller < |s'.callers.issued| && c.request == s'.callers.issued[c.caller]
    ensures QueueMatchesIssued(s')
  {
    assert forall k :: 0 <= k < |s'.cmds| ==> s'.cmds[k] == if k < |s.cmds| then s.cmds[k] else c;
  }

  lemma InvAfterIssueCall(s: State, request: Message)
    requires Inv(s)
    ensures Inv(IssueCall(s, request))
  {
    var c := RpcCall(request, |s.callers.issued|);
    AppendKeepsWaiting(s, c);
    Calls.GoodAfterIssue(s.calls, s.callers.issued, WaitingCalls(s), request);
    assert WaitingSubs(s) + [] == WaitingSubs(s);
    QueueGrows(s, IssueCall(s, request), c);
  }

  lemma InvAfterDoSubscribe(s: State, ri: Ri)
    requires Inv(s)
    ensures Inv(IssueSubscribe(s, ri))
  {
    var c := Subscribe(ri, s.callers.nextSub);
    AppendKeepsWaiting(s, c);
    Subs.GoodAfterIssue(s.subs, WaitingSubs(s), s.callers.nextSub);
    assert WaitingCalls(s) + [] == WaitingCalls(s);
    QueueGrows(s, IssueSubscribe(s, ri), c);
  }

  lemma PopWaiting(s: State)
    requires s.cmds != []
    ensures WaitingCalls(s) == CallerOf(s.cmds[0]) + WaitingCalls(Pop(s))
    ensures WaitingSubs(s) == SubscriptionOf(s.cmds[0]) + WaitingSubs(Pop(s))
    ensures QueueMatchesIssued(s) ==> QueueMatchesIssued(Pop(s))
  {
    assert forall k :: 0 <= k < |Pop(s).cmds| ==> Pop(s).cmds[k] == s.cmds[k + 1];
  }

  lemma InvAfterPop(s: State)
    requires Inv(s) && s.cmds != [] && !s.cmds[0].RpcCall? && !s.cmds[0].Subscribe?
    ensures Inv(Pop(s))
  {
    PopWaiting(s);
    assert [] + WaitingCalls(Pop(s)) == WaitingCalls(Pop(s)) && [] + WaitingSubs(Pop(s)) == WaitingSubs(Pop(s));
  }

  lemma InvAfterRpcCall(lib: Library, s: State)
    requires Inv(s) && s.cmds != [] && s.cmds[0].RpcCall?
    ensures Inv(HandleCommand(lib, s))
  {
    var request, caller := s.cmds[0].request, s.cmds[0].caller;
    var waiting, popped := WaitingCalls(s), Pop(s);
    PopWaiting(s);
    assert [] + WaitingSubs(popped) == WaitingSubs(popped);
    assert waiting[0] == caller && waiting[1..] == WaitingCalls(popped);
    if request.RequestId().None? {
      Calls.GoodAfterRefuse(s.calls, s.callers.issued, waiting, lib.answersIdless);
    } else {
      Calls.GoodAfterRegister(s.calls, s.callers.issued, waiting, request.RequestId().value);
      var s' := popped.(calls := Calls.Register(s.calls, request.RequestId().value, caller));
      assert WaitingCalls(s') == WaitingCalls(popped) && WaitingSubs(s') == WaitingSubs(popped);
      InvAfterAppend(s', SendMessage(request, FromCall));
    }
  }

  lemma InvAfterSubscribe(lib: Library, s: State)
    requires Inv(s) && s.cmds != [] && s.cmds[0].Subscribe?
    ensures Inv(HandleCommand(lib, s))
    ensures HandleCommand(lib, s).status == s.status
  {
    var ri, sub := s.cmds[0].ri, s.cmds[0].sub;
    var waiting, popped := WaitingSubs(s), Pop(s);
    PopWaiting(s);
    assert [] + WaitingCalls(popped) == WaitingCalls(popped);
    assert waiting[0] == sub && waiting[1..] == WaitingSubs(popped);
    if s.version.None? {
      Subs.GoodAfterReject(s.subs, waiting, s.callers.nextSub, ErrorFrame(s.nextId, InternalError));
    } else {
      var accepted := Subs.AcceptedRi(lib, s.version.value, ri);
      if accepted.None? {
        Subs.GoodAfterReject(s.subs, waiting, s.callers.nextSub, ErrorFrame(s.nextId, InvalidParam));
      } else if Subs.HasRi(s.subs.table, accepted.value) {
        Subs.GoodAfterJoin(s.subs, waiting, s.callers.nextSub, accepted.value, OkFrame(s.nextId));
      } else {
        Subs.GoodAfterAddNew(s.subs, waiting, s.callers.nextSub, accepted.value, s.nextId);
        var s' := popped.(subs := Subs.AddNew(s.subs, accepted.value, sub, s.nextId), nextId := s.nextId + 1);
        assert WaitingCalls(s') == WaitingCalls(popped) && WaitingSubs(s') == WaitingSubs(popped);
        InvAfterAppend(s', SendMessage(Subs.CreateSubscriptionRequest(accepted.value, Subs.Subscribing,
                                                                      s.version.value, s.nextId), FromSubscription));
      }
    }
  }

  /** The id in a Subscribe command about to be handled is not in the table: the assertion in `add` holds. */
  lemma SubscribedIdIsNew(s: State)
    requires Inv(s) && s.cmds != [] && s.cmds[0].Subscribe?
    ensures !Subs.HasId(s.subs.table, s.cmds[0].sub)
  {
    PopWaiting(s);
    assert WaitingSubs(s)[0] == s.cmds[0].sub;
  }

  lemma InvAfterUnsubscribe(s: State, sub: nat)
    requires Inv(s)
    ensures Inv(HandleUnsubscribe(s, sub))
  {
    if s.version.Some? {
      Subs.GoodAfterRemove(s.subs, WaitingSubs(s), s.callers.nextSub, sub);
      var s' := s.(subs := Subs.Remove(s.subs, sub));
      var orphaned := Subs.Orphaned(s.subs.table, sub);
      assert Inv(s');
      if orphaned.Some? {
        assert Inv(s'.(nextId := s.nextId + 1));
        InvAfterAppend(s'.(nextId := s.nextId + 1),
                       SendMessage(Subs.CreateSubscriptionRequest(orphaned.value, Subs.Unsubscribing,
                                                                  s.version.value, s.nextId), FromSubscription));
      }
    }
  }

  lemma InvAfterCommand(lib: Library, s: State)
    requires Inv(s) && s.cmds != []
    ensures Inv(HandleCommand(lib, s))
  {
    match s.cmds[0]
    case SendMessage(_, _) => InvAfterPop(s);
    case RpcCall(_, _) => InvAfterRpcCall(lib, s);
    case Subscribe(_, _) => InvAfterSubscribe(lib, s);
    case Unsubscribe(sub) =>
      InvAfterPop(s);
      InvAfterUnsubscribe(Pop(s), sub);
    case TerminateClient => InvAfterPop(s);
  }

  lemma InvAfterFrame(lib: Library, s: State, frame: Frame)
    requires Inv(s)
    ensures Inv(HandleFrame(lib, s, frame))
  {
    match frame
    case RequestFrame(_, _, _, _, _, _) =>
      var outcome := ClientNode.Route(lib, frame);
      if outcome.Answer? {
        InvAfterAppend(s, SendMessage(Response(Some(frame.requestId), outcome.body), Reply));
      }
    case ResponseFrame(id, body) =>
      if id.Some? && body.None? {
        InvAfterAppend(s, SendMessage(Response(id, Error(ParseError)), Reply));
      } else if id.Some? && id.value in s.calls.pending {
        Calls.GoodAfterDeliver(s.calls, s.callers.issued, WaitingCalls(s), id.value, frame);
      } else if id.Some? && id.value in s.subs.requests {
        Subs.GoodAfterConfirm(s.subs, WaitingSubs(s), s.callers.nextSub, id.value, frame);
      }
    case SignalFrame(_, _, _, _) =>
      var ri := NotificationRi(lib, frame);
      if ri.Some? && s.version.Some? {
        Subs.GoodAfterFanOut(lib, s.version.value, ri.value, frame, s.subs, WaitingSubs(s), s.callers.nextSub);
      }
    case OtherFrame =>
  }

  lemma InvAfterEvent(lib: Library, s: State, event: ConnEvent)
    requires Inv(s)
    ensures Inv(HandleEvent(lib, s, event))
  {
    match event
    case RpcFrameReceived(frame) => InvAfterFrame(lib, s, frame);
    case HeartbeatTimeout =>
      if s.version.Some? {
        assert Inv(s.(nextId := s.nextId + 1));
        InvAfterAppend(s.(nextId := s.nextId + 1), SendMessage(Ping(s.version.value, s.nextId), Heartbeat));
      }
    case Disconnected =>
      Calls.GoodAfterClear(s.calls, s.callers.issued, WaitingCalls(s));
      Subs.GoodAfterClear(s.subs, WaitingSubs(s), s.callers.nextSub);
    case _ =>
  }

  lemma InvAfterCaller(lib: Library, s: State, a: Action)
    requires Inv(s) && Enabled(s, a) && a.CallersOwn()
    ensures Inv(Next(lib, s, a))
  {
    match a
    case DoRpcCall(path, rpcMethod, param) =>
      assert Inv(s.(nextId := s.nextId + 1));
      InvAfterIssueCall(s.(nextId := s.nextId + 1), Request(Some(s.nextId), path, rpcMethod, param));
    case RawRpcCall(request) => InvAfterIssueCall(s, request);
    case DoSendMessage(message) =>
      var s' := s.(callers := s.callers.(posted := s.callers.posted + [message]));
      assert Inv(s');
      InvAfterAppend(s', SendMessage(message, Application));
    case DoSubscribe(ri) => InvAfterDoSubscribe(s, ri);
    case DropSubscriber(sub) =>
      var s' := s.(callers := s.callers.(alive := s.callers.alive - {sub}));
      assert Inv(s');
      InvAfterAppend(s', Unsubscribe(sub));
    case DoTerminate => InvAfterAppend(s, TerminateClient);
  }

  lemma InvAfterTimer(lib: Library, s: State, a: Action)
    requires Inv(s) && Enabled(s, a) && (a.TimerExpires? || a.TimerUpdated? || a.TimerClosed?)
    ensures Inv(Next(lib, s, a))
  {
    match a
    case TimerExpires(t) => Calls.GoodAfterExpire(s.calls, s.callers.issued, WaitingCalls(s), t, s.nextId);
    case TimerUpdated(t) => Calls.GoodAfterRestart(s.calls, s.callers.issued, WaitingCalls(s), t);
    case TimerClosed(t) => Calls.GoodAfterCancel(s.calls, s.callers.issued, WaitingCalls(s), t);
  }

  lemma InvAfterStep(lib: Library, s: State, a: Action)
    requires Inv(s)
    ensures Inv(Step(lib, s, a))
  {
    if Enabled(s, a) {
      match a
      case NextCommand => InvAfterCommand(lib, s);
      case NextEvent(event) => InvAfterEvent(lib, s, event);
      case EventsClosed =>
      case VersionResult(_) =>
      case TimerExpires(_) => InvAfterTimer(lib, s, a);
      case TimerUpdated(_) => InvAfterTimer(lib, s, a);
      case TimerClosed(_) => InvAfterTimer(lib, s, a);
      case _ => InvAfterCaller(lib, s, a);
    }
  }

  lemma {:induction false} InvAlways(lib: Library, run: seq<Action>)
    ensures Inv(After(lib, run))
  {
    if run != [] {
      InvAlways(lib, run[..|run| - 1]);
      InvAfterStep(lib, After(lib, run[..|run| - 1]), run[|run| - 1]);
    }
  }
}
