/** The client loop on mutable tables. Each method carries out one step of the state machine in Client. */
module ClientLoop {
  import opened Basics
  import opened Wire
  import opened Client
  import opened ClientSafety
  import Calls = RpcCalls
  import Subs = Subscriptions
  import ClientNode

  class Loop {
    const lib: Library
    const subscriptions: Subs.Table

    var status: Status
    var clientCmds: seq<Command>
    var pendingRpcCalls: map<int, Calls.Call>
    var rpcCallTimers: map<nat, Calls.Timer>
    var nextTimer: nat
    var subscriptionRequests: map<int, nat>
    var connCmdSender: Option<nat>
    var shvApiVersion: Option<ApiVersion>
    var nextRequestId: int
    var nextSubscriptionId: nat

    // what the loop has written to its channels
    var responses: map<nat, seq<Frame>>
    var notifications: map<nat, seq<Frame>>
    var sent: seq<Sent>
    var versionChecks: nat
    var nodeTasks: seq<Task>
    var clientEvents: seq<ClientEvent>

    // history
    ghost var mark: nat
    ghost var abandoned: set<nat>
    ghost var emitted: seq<Subs.Emitted>
    ghost var posted: seq<Message>
    var issued: seq<Message>
    var alive: set<nat>

    ghost function View(): State
      reads this, subscriptions
    {
      State(status, clientCmds, CallsView(), SubsView(), connCmdSender, shvApiVersion, nextRequestId,
            sent, mark, versionChecks,
            Outputs(nodeTasks, clientEvents), Callers(issued, posted, nextSubscriptionId, alive))
    }

    ghost function CallsView(): Calls.Calls
      reads this
    {
      Calls.Calls(pendingRpcCalls, rpcCallTimers, nextTimer, responses, abandoned)
    }

    ghost function SubsView(): Subs.Subs
      reads this, subscriptions
    {
      Subs.Subs(subscriptions.entries, subscriptionRequests, notifications, emitted)
    }

    ghost predicate Valid()
      reads this, subscriptions
    {
      Inv(View())
    }

    constructor (lib: Library)
      ensures View() == INIT && Valid() && this.lib == lib
      ensures fresh(subscriptions)
    {
      this.lib := lib;
      subscriptions := new Subs.Table();
      status, clientCmds := Running, [];
      pendingRpcCalls, rpcCallTimers, nextTimer, subscriptionRequests := map[], map[], 0, map[];
      connCmdSender, shvApiVersion, nextRequestId, nextSubscriptionId := None, None, 1, 0;
      responses, notifications, sent, versionChecks, nodeTasks, clientEvents := map[], map[], [], 0, [], [];
      mark, abandoned, emitted, posted, issued, alive := 0, {}, [], [], [], {};
      new;
      InvAlways(lib, []);
    }

    // ------------------------------------------------ the command channel's users

    method NewRequestId() returns (id: int)
      modifies this`nextRequestId
      ensures id == old(nextRequestId) && nextRequestId == id + 1
    {
      id := nextRequestId;
      nextRequestId := nextRequestId + 1;
    }

    method DoRpcCall(path: string, rpcMethod: string, param: Param) returns (receiver: nat)
      requires Valid() && status.Running?
      modifies this
      ensures Valid() && View() == Next(lib, old(View()), Client.DoRpcCall(path, rpcMethod, param))
      ensures receiver == |old(issued)|
    {
      InvAfterStep(lib, View(), Client.DoRpcCall(path, rpcMethod, param));
      var id := NewRequestId();
      receiver := PostCall(Request(Some(id), path, rpcMethod, param));
    }

    method PostCall(request: Message) returns (receiver: nat)
      modifies this`clientCmds, this`issued
      ensures View() == IssueCall(old(View()), request) && receiver == |old(issued)|
    {
      receiver := |issued|;
      clientCmds := clientCmds + [RpcCall(request, receiver)];
      issued := issued + [request];
    }

    method SendDirect(message: Message)
      requires Valid() && status.Running?
      modifies this
      ensures Valid() && View() == Next(lib, old(View()), DoSendMessage(message))
    {
      InvAfterStep(lib, View(), DoSendMessage(message));
      posted := posted + [message];
      SendMessage(message, Application);
    }

    method SendMessage(message: Message, origin: Origin)
      modifies this`clientCmds
      ensures View() == Post(old(View()), message, origin)
    {
      clientCmds := clientCmds + [Command.SendMessage(message, origin)];
    }

    method Subscribe(ri: Ri) returns (id: nat)
      requires Valid() && status.Running?
      modifies this
      ensures Valid() && View() == Next(lib, old(View()), DoSubscribe(ri))
      ensures id == old(nextSubscriptionId)
    {
      InvAfterStep(lib, View(), DoSubscribe(ri));
      id := PostSubscribe(ri);
    }

    method PostSubscribe(ri: Ri) returns (id: nat)
      modifies this`nextSubscriptionId, this`alive, this`clientCmds
      ensures View() == IssueSubscribe(old(View()), ri) && id == old(nextSubscriptionId)
    {
      id := nextSubscriptionId;
      nextSubscriptionId := id + 1;
      alive := alive + {id};
      clientCmds := clientCmds + [Command.Subscribe(ri, id)];
    }

    method DropSubscriber(id: nat)
      requires Valid() && status.Running? && id in alive
      modifies this
      ensures Valid() && View() == Next(lib, old(View()), Client.DropSubscriber(id))
    {
      InvAfterStep(lib, View(), Client.DropSubscriber(id));
      alive := alive - {id};
      clientCmds := clientCmds + [Unsubscribe(id)];
    }

    method TerminateClient()
      requires Valid() && status.Running?
      modifies this
      ensures Valid() && View() == Next(lib, old(View()), DoTerminate)
    {
      InvAfterStep(lib, View(), DoTerminate);
      clientCmds := clientCmds + [Command.TerminateClient];
    }

    // ------------------------------------------------------------- RPC call timers

    method OnTimer(t: nat)
      requires Valid() && status.Running? && t in rpcCallTimers
      modifies this
      ensures Valid() && View() == Next(lib, old(View()), TimerExpires(t))
    {
      InvAfterStep(lib, View(), TimerExpires(t));
      ExpireTimer(t);
    }

    method ExpireTimer(t: nat)
      requires t in rpcCallTimers
      modifies this
      ensures View() == HandleTimeout(old(View()), t)
    {
      var id := rpcCallTimers[t].request;
      rpcCallTimers := rpcCallTimers - {t};
      if id in pendingRpcCalls {
        var call := pendingRpcCalls[id];
        pendingRpcCalls := pendingRpcCalls - {id};
        var errorId := NewRequestId();
        responses := Send(responses, call.caller, Calls.TimeoutFrame(errorId));
      }
    }

    method OnTimerUpdated(t: nat)
      requires Valid() && status.Running? && t in rpcCallTimers && rpcCallTimers[t].updates > 0
      modifies this
      ensures Valid() && View() == Next(lib, old(View()), TimerUpdated(t))
    {
      InvAfterStep(lib, View(), TimerUpdated(t));
      rpcCallTimers := rpcCallTimers[t := rpcCallTimers[t].(updates := rpcCallTimers[t].updates - 1)];
    }

    method OnTimerClosed(t: nat)
      requires Valid() && Enabled(View(), TimerClosed(t))
      modifies this
      ensures Valid() && View() == Next(lib, old(View()), TimerClosed(t))
    {
      InvAfterStep(lib, View(), TimerClosed(t));
      rpcCallTimers := rpcCallTimers - {t};
    }

    // ------------------------------------------------------------------- commands

    method OnCommand()
      requires Valid() && status.Running? && clientCmds != []
      modifies this, subscriptions
      ensures Valid() && View() == Next(lib, old(View()), NextCommand)
    {
      InvAfterStep(lib, View(), NextCommand);
      if clientCmds[0].Subscribe? {
        SubscribedIdIsNew(View());
      }
      CarryOutCommand();
    }

    method CarryOutCommand()
      requires clientCmds != []
      requires clientCmds[0].Subscribe? ==> !Subs.HasId(subscriptions.entries, clientCmds[0].sub)
      modifies this, subscriptions
      ensures View() == HandleCommand(lib, old(View()))
    {
      ghost var before := View();
      var cmd := clientCmds[0];
      clientCmds := clientCmds[1..];
      assert View() == Pop(before);
      match cmd
      case SendMessage(message, origin) =>
        sent := sent + [Sent(message, origin, connCmdSender)];
      case RpcCall(request, caller) => OnRpcCall(request, caller);
      case Subscribe(ri, id) => OnSubscribe(ri, id);
      case Unsubscribe(id) => OnUnsubscribe(id);
      case TerminateClient => status := Terminated;
    }

    method OnRpcCall(request: Message, caller: nat)
      modifies this
      ensures View() == HandleRpcCall(lib, old(View()), request, caller)
    {
      if request.RequestId().None? {
        RefuseCall(caller);
      } else {
        RegisterCall(request.RequestId().value, caller);
        SendMessage(request, FromCall);
      }
    }

    method RefuseCall(caller: nat)
      modifies this`responses, this`abandoned
      ensures CallsView() == Calls.Refuse(old(CallsView()), caller, lib.answersIdless)
    {
      if lib.answersIdless {
        responses := Send(responses, caller, Calls.IdlessFrame());
      } else {
        abandoned := abandoned + {caller};
      }
    }

    method RegisterCall(id: int, caller: nat)
      modifies this`pendingRpcCalls, this`rpcCallTimers, this`nextTimer, this`responses
      ensures CallsView() == Calls.Register(old(CallsView()), id, caller)
    {
      var timer := nextTimer;
      nextTimer := nextTimer + 1;
      rpcCallTimers := rpcCallTimers[timer := Calls.Timer(id, 0)];
      if id in pendingRpcCalls {
        responses := Send(responses, pendingRpcCalls[id].caller, Calls.CancelledFrame(id));
      }
      pendingRpcCalls := pendingRpcCalls[id := Calls.Call(caller, timer)];
    }

    method OnSubscribe(ri: Ri, id: nat)
      requires !Subs.HasId(subscriptions.entries, id)
      modifies this, subscriptions
      ensures View() == HandleSubscribe(lib, old(View()), ri, id)
    {
      if shvApiVersion.None? {
        var errorId := NewRequestId();
        notifications := Send(notifications, id, ErrorFrame(errorId, InternalError));
      } else {
        OnSubscribeUnder(shvApiVersion.value, ri, id);
      }
    }

    method OnSubscribeUnder(version: ApiVersion, ri: Ri, id: nat)
      requires shvApiVersion == Some(version) && !Subs.HasId(subscriptions.entries, id)
      modifies this, subscriptions
      ensures View() == HandleSubscribe(lib, old(View()), ri, id)
    {
      ghost var before := View();
      var requestId := NewRequestId();
      assert SubsView() == before.subs;
      var request := EnterSubscription(version, ri, id, requestId);
      assert View() == before.(subs := SubsView(), nextId := requestId + 1);
      assert request.None? ==> View() == HandleSubscribe(lib, before, ri, id);
      if request.Some? {
        SendMessage(request.value, FromSubscription);
      }
    }

    method EnterSubscription(version: ApiVersion, ri: Ri, id: nat, requestId: int) returns (request: Option<Message>)
      requires !Subs.HasId(subscriptions.entries, id)
      modifies this`notifications, this`subscriptionRequests, this`emitted, subscriptions
      ensures var accepted, before := Subs.AcceptedRi(lib, version, ri), old(SubsView());
              && SubsView() == (if accepted.None? then Subs.Reject(before, id, ErrorFrame(requestId, InvalidParam))
                                else if Subs.HasRi(before.table, accepted.value) then
                                  Subs.Join(before, accepted.value, id, OkFrame(requestId))
                                else Subs.AddNew(before, accepted.value, id, requestId))
              && request == (if accepted.None? || Subs.HasRi(before.table, accepted.value) then None
                             else Some(Subs.CreateSubscriptionRequest(accepted.value, Subs.Subscribing,
                                                                      version, requestId)))
    {
      request := None;
      ghost var accepted, table := Subs.AcceptedRi(lib, version, ri), subscriptions.entries;
      var added := subscriptions.Add(lib, version, ri, id, requestId);
      match added
      case Invalid =>
        notifications := Send(notifications, id, ErrorFrame(requestId, InvalidParam));
      case Joined =>
        notifications := Send(notifications, id, OkFrame(requestId));
        ConfirmLast(table, accepted.value, id);
      case Requested(message) =>
        subscriptionRequests := subscriptionRequests[requestId := id];
        emitted := emitted + [Subs.Emitted(Subs.Subscribing, accepted.value)];
        request := Some(message);
    }

    method ConfirmLast(ghost table: seq<Subs.Entry>, ghost ri: Ri, id: nat)
      requires subscriptions.entries == table + [Subs.Entry(false, id, ri)] && !Subs.HasId(table, id)
      modifies subscriptions
      ensures subscriptions.entries == table + [Subs.Entry(true, id, ri)]
    {
      PositionOfLast(table, Subs.Entry(false, id, ri));
      subscriptions.SetConfirmed(id);
    }

    method OnUnsubscribe(id: nat)
      modifies this, subscriptions
      ensures View() == HandleUnsubscribe(old(View()), id)
    {
      if shvApiVersion.None? {
        status := Panicked(UnknownVersion);
        return;
      }
      ghost var orphaned := Subs.Orphaned(subscriptions.entries, id);
      var request := subscriptions.Remove(shvApiVersion.value, id, nextRequestId);
      if request.Some? {
        emitted := emitted + [Subs.Emitted(Subs.Unsubscribing, orphaned.value)];
        nextRequestId := nextRequestId + 1;
        SendMessage(request.value, FromSubscription);
      }
    }

    // ---------------------------------------------------------- connection events

    method OnConnEvent(event: ConnEvent)
      requires Valid() && status.Running?
      modifies this, subscriptions
      ensures Valid() && View() == Next(lib, old(View()), NextEvent(event))
    {
      InvAfterStep(lib, View(), NextEvent(event));
      CarryOut(event);
    }

    method CarryOut(event: ConnEvent)
      modifies this, subscriptions
      ensures View() == HandleEvent(lib, old(View()), event)
    {
      match event
      case RpcFrameReceived(frame) => ProcessRpcFrame(frame);
      case ConnectionFailed(kind) => clientEvents := clientEvents + [EventFailed(kind)];
      case Connected(conn) => Connect(conn);
      case HeartbeatTimeout => SendPing();
      case Disconnected => Disconnect();
    }

    method Connect(conn: nat)
      modifies this`connCmdSender, this`mark, this`versionChecks
      ensures View() == HandleEvent(lib, old(View()), Connected(conn))
    {
      connCmdSender := Some(conn);
      mark := |sent|;
      versionChecks := versionChecks + 1;
    }

    method SendPing()
      modifies this`nextRequestId, this`clientCmds
      ensures View() == HandleEvent(lib, old(View()), HeartbeatTimeout)
    {
      if shvApiVersion.Some? {
        var id := NewRequestId();
        SendMessage(Ping(shvApiVersion.value, id), Heartbeat);
      }
    }

    method Disconnect()
      modifies this, subscriptions
      ensures View() == HandleEvent(lib, old(View()), Disconnected)
    {
      ghost var before := View();
      ClearSubscriptions();
      assert View() == before.(subs := Subs.Clear(before.subs));
      ClearCalls();
      assert View() == before.(subs := Subs.Clear(before.subs), calls := Calls.Clear(before.calls));
      connCmdSender := None;
      clientEvents := clientEvents + [EventDisconnected];
    }

    method ClearSubscriptions()
      modifies this`subscriptionRequests, this`emitted, subscriptions
      ensures SubsView() == Subs.Clear(old(SubsView()))
    {
      subscriptions.Clear();
      emitted := [];
      subscriptionRequests := map[];
    }

    method ClearCalls()
      modifies this`pendingRpcCalls, this`rpcCallTimers, this`abandoned
      ensures CallsView() == Calls.Clear(old(CallsView()))
    {
      abandoned := abandoned + Calls.PendingCallers(CallsView());
      pendingRpcCalls := map[];
      rpcCallTimers := map[];
    }

    method OnVersionResult(result: Option<ApiVersion>)
      requires Valid() && status.Running? && versionChecks > 0
      modifies this
      ensures Valid() && View() == Next(lib, old(View()), VersionResult(result))
    {
      InvAfterStep(lib, View(), VersionResult(result));
      StoreVersion(result);
    }

    method StoreVersion(result: Option<ApiVersion>)
      requires versionChecks > 0
      modifies this`versionChecks, this`shvApiVersion, this`clientEvents
      ensures View() == HandleVersion(old(View()), result)
    {
      versionChecks := versionChecks - 1;
      if result.Some? {
        shvApiVersion := result;
        clientEvents := clientEvents + [EventConnected(result.value)];
      } else {
        clientEvents := clientEvents + [EventFailed(NetworkError)];
      }
    }

    method ProcessRpcFrame(frame: Frame)
      modifies this, subscriptions
      ensures View() == HandleFrame(lib, old(View()), frame)
    {
      match frame
      case RequestFrame(id, _, _, _, _, _) =>
        var outcome := ClientNode.Route(lib, frame);
        match outcome {
          case Ignored =>
          case Answer(body) => SendMessage(Response(Some(id), body), Reply);
          case Dispatch(mount, rest) => nodeTasks := nodeTasks + [Task(mount, rest, frame)];
        }
      case ResponseFrame(id, body) =>
        if id.Some? {
          if body.None? {
            SendMessage(Response(id, Error(ParseError)), Reply);
          } else {
            OnResponse(id.value, frame);
          }
        }
      case SignalFrame(path, _, _, _) => OnSignal(frame);
      case OtherFrame =>
    }

    method OnResponse(id: int, frame: Frame)
      requires frame.ResponseFrame? && frame.id == Some(id) && frame.body.Some?
      modifies this, subscriptions
      ensures View() == HandleResponse(old(View()), frame)
    {
      if id in pendingRpcCalls {
        DeliverToCall(id, frame);
      } else if id in subscriptionRequests {
        ConfirmSubscription(id, frame);
      }
    }

    method DeliverToCall(id: int, frame: Frame)
      requires id in pendingRpcCalls
      modifies this`pendingRpcCalls, this`rpcCallTimers, this`responses
      ensures CallsView() == Calls.Deliver(old(CallsView()), id, frame)
    {
      var call := pendingRpcCalls[id];
      if frame.IsDelay() {
        if call.timer in rpcCallTimers {
          var timer := rpcCallTimers[call.timer];
          rpcCallTimers := rpcCallTimers[call.timer := timer.(updates := timer.updates + 1)];
        }
      } else {
        pendingRpcCalls := pendingRpcCalls - {id};
      }
      responses := Send(responses, call.caller, frame);
    }

    method ConfirmSubscription(id: int, frame: Frame)
      requires id in subscriptionRequests
      modifies this`subscriptionRequests, this`notifications, subscriptions
      ensures SubsView() == Subs.Confirm(old(SubsView()), id, frame)
    {
      var sub := subscriptionRequests[id];
      subscriptionRequests := subscriptionRequests - {id};
      var pos := subscriptions.Find(sub);
      if pos < |subscriptions.entries| {
        notifications := Send(notifications, sub, frame);
        subscriptions.SetConfirmed(sub);
      }
    }

    method OnSignal(frame: Frame)
      requires frame.SignalFrame?
      modifies this
      ensures View() == HandleSignal(lib, old(View()), frame)
    {
      var ri := NotificationRi(lib, frame);
      if ri.None? || shvApiVersion.None? {
        return;
      }
      var version := shvApiVersion.value;
      ghost var before := View();
      var table := subscriptions.entries;
      for k := 0 to |table|
        invariant notifications == Subs.FanOut(lib, version, ri.value, frame, table, before.subs.logs, k)
        invariant View() == before.(subs := before.subs.(logs := notifications))
        invariant subscriptions.entries == table
      {
        if table[k].confirmed && Subs.Matches(lib, table[k].ri, ri.value, version) {
          notifications := Send(notifications, table[k].id, frame);
        }
      }
    }

    // -------------------------------------------------------------------- the loop

    /** A caller's action, through the command channel. */
    method PerformCaller(a: Action)
      requires Valid() && status.Running? && a.CallersOwn()
      modifies this
      ensures Valid() && View() == Step(lib, old(View()), a)
    {
      match a
      case DoRpcCall(path, rpcMethod, param) => var _ := DoRpcCall(path, rpcMethod, param);
      case RawRpcCall(request) =>
        InvAfterStep(lib, View(), a);
        var _ := PostCall(request);
      case DoSendMessage(message) => SendDirect(message);
      case DoSubscribe(ri) => var _ := Subscribe(ri);
      case DropSubscriber(id) => if id in alive { DropSubscriber(id); }
      case DoTerminate => TerminateClient();
    }

    method PerformTimer(a: Action)
      requires Valid() && status.Running? && (a.TimerExpires? || a.TimerUpdated? || a.TimerClosed?)
      modifies this
      ensures Valid() && View() == Step(lib, old(View()), a)
    {
      match a
      case TimerExpires(t) => if t in rpcCallTimers { OnTimer(t); }
      case TimerUpdated(t) => if t in rpcCallTimers && rpcCallTimers[t].updates > 0 { OnTimerUpdated(t); }
      case TimerClosed(t) =>
        if t in rpcCallTimers && rpcCallTimers[t].updates == 0 {
          var held := exists id | id in pendingRpcCalls :: pendingRpcCalls[id].timer == t;
          if !held { OnTimerClosed(t); }
        }
    }

    /** One turn of `select!`, or one caller's action; nothing if it is not possible now. */
    method Perform(a: Action)
      requires Valid()
      modifies this, subscriptions
      ensures Valid() && View() == Step(lib, old(View()), a)
    {
      if !status.Running? {
        return;
      }
      match a
      case NextCommand => if clientCmds != [] { OnCommand(); }
      case NextEvent(event) => OnConnEvent(event);
      case EventsClosed =>
        InvAfterStep(lib, View(), EventsClosed);
        status := Terminated;
      case VersionResult(result) => if versionChecks > 0 { OnVersionResult(result); }
      case TimerExpires(_) => PerformTimer(a);
      case TimerUpdated(_) => PerformTimer(a);
      case TimerClosed(_) => PerformTimer(a);
      case _ => PerformCaller(a);
    }
  }

  lemma PositionOfLast(table: seq<Subs.Entry>, e: Subs.Entry)
    requires !Subs.HasId(table, e.id)
    ensures Subs.Position(table + [e], e.id) == |table|
  {
    assert forall k :: 0 <= k < |table| ==> (table + [e])[k] == table[k];
    assert (table + [e])[|table|] == e;
  }

  /** The loop on mutable tables does, on every run, what the state machine does. */
  method RunLoop(lib: Library, run: seq<Action>) returns (client: Loop)
    ensures client.View() == After(lib, run) && client.Valid()
  {
    client := new Loop(lib);
    for n := 0 to |run|
      invariant client.Valid() && client.View() == After(lib, run[..n]) && client.lib == lib
      invariant fresh(client) && fresh(client.subscriptions)
    {
      PrefixStep(lib, run, n);
      client.Perform(run[n]);
    }
    assert run[..|run|] == run;
  }
}
