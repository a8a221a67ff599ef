/** RPC calls over whole runs: timers, request ids, routing of responses. */
module CallTheorems {
  import opened Basics
  import opened Wire
  import opened Client
  import opened ClientSafety
  import Calls = RpcCalls
  import Subs = Subscriptions
  import ClientNode

  // ------------------------------------------------------------------ timers

  /** Pending calls and timers on every run: one live timer each, no other timer with an open channel. */
  lemma CallsAndTimersAlwaysPair(lib: Library, run: seq<Action>)
    ensures
      var r := After(lib, run).calls;
      && (forall id :: id in r.pending ==> r.pending[id].timer in r.timers)
      && (forall id, id' :: id in r.pending && id' in r.pending && id != id' ==>
            r.pending[id].timer != r.pending[id'].timer)
      && (forall t :: t in r.timers ==>
            (Calls.Held(r, t) <==> r.timers[t].request in r.pending && r.pending[r.timers[t].request].timer == t))
  {
    InvAlways(lib, run);
    Calls.CallsAndTimersPairUp(After(lib, run).calls);
  }

  lemma TimeoutFinishesCall(r: Calls.Calls, issued: seq<Message>, waiting: seq<nat>, id: int, errorId: int)
    requires Calls.Good(r, issued, waiting) && id in r.pending
    ensures
      var call := r.pending[id];
      call.timer in r.timers && call.caller < |issued| &&
      var r' := Calls.Expire(r, call.timer, Calls.TimeoutFrame(errorId));
      && id !in r'.pending
      && Log(r'.logs, call.caller) == Log(r.logs, call.caller) + [Calls.TimeoutFrame(errorId)]
      && Calls.Finished(issued[call.caller], Log(r'.logs, call.caller))
  {
    var call := r.pending[id];
    assert Calls.Accounted(r, issued, waiting, call.caller);
    Calls.FinalAppended(issued[call.caller], Log(r.logs, call.caller), Calls.TimeoutFrame(errorId));
  }

  lemma TimeoutFinishes(lib: Library, s: State, id: int)
    requires Inv(s) && s.status.Running? && id in s.calls.pending
    ensures
      var call := s.calls.pending[id];
      var s' := Step(lib, s, TimerExpires(call.timer));
      && s'.nextId == s.nextId + 1 && id !in s'.calls.pending && call.caller < |s'.callers.issued|
      && Log(s'.calls.logs, call.caller)
         == Log(s.calls.logs, call.caller) + [ResponseFrame(Some(s.nextId), Some(Error(MethodCallTimeout)))]
      && Calls.Finished(s'.callers.issued[call.caller], Log(s'.calls.logs, call.caller))
  {
    TimeoutFinishesCall(s.calls, s.callers.issued, WaitingCalls(s), id, s.nextId);
  }

  /** No pending call is left without a way to end: its own timer can fire, and that finishes it. */
  lemma EveryPendingCallCanTimeOut(lib: Library, run: seq<Action>, id: int)
    requires After(lib, run).status.Running? && id in After(lib, run).calls.pending
    ensures
      var s := After(lib, run);
      var call := s.calls.pending[id];
      var s' := Step(lib, s, TimerExpires(call.timer));
      && s'.nextId == s.nextId + 1 && id !in s'.calls.pending && call.caller < |s'.callers.issued|
      && Log(s'.calls.logs, call.caller)
         == Log(s.calls.logs, call.caller) + [ResponseFrame(Some(s.nextId), Some(Error(MethodCallTimeout)))]
      && Calls.Finished(s'.callers.issued[call.caller], Log(s'.calls.logs, call.caller))
  {
    InvAlways(lib, run);
    TimeoutFinishes(lib, After(lib, run), id);
  }

  // -------------------------------------------- requests with ids of their own

  /** Every RpcCall comes from `do_rpc_call`, which takes a new request id. */
  predicate FreshRun(run: seq<Action>) {
    forall i :: 0 <= i < |run| ==> !run[i].RawRpcCall?
  }

  ghost predicate FreshIds(s: State) {
    && Calls.OneCallPerId(s.calls, s.callers.issued, WaitingCalls(s))
    && (forall c :: 0 <= c < |s.callers.issued| ==> s.callers.issued[c].RequestId().value < s.nextId)
    && (forall t :: t in s.calls.timers ==> s.calls.timers[t].request < s.nextId)
    && (forall c, q :: 0 <= c < |s.callers.issued| && q in s.subs.requests ==>
          s.callers.issued[c].RequestId() != Some(q))
  }

  lemma FreshAfterIssue(s: State, path: string, rpcMethod: string, param: Param)
    requires Inv(s) && FreshIds(s)
    ensures FreshIds(IssueCall(s.(nextId := s.nextId + 1), Request(Some(s.nextId), path, rpcMethod, param)))
  {
    var request, issued := Request(Some(s.nextId), path, rpcMethod, param), s.callers.issued;
    AppendKeepsWaiting(s, RpcCall(request, |issued|));
    OneCallPerIdAfterIssue(s.calls, issued, WaitingCalls(s), request, s.nextId);
  }

  lemma OneCallPerIdAfterIssue(r: Calls.Calls, issued: seq<Message>, waiting: seq<nat>, request: Message, id: int)
    requires Calls.OneCallPerId(r, issued, waiting) && request.RequestId() == Some(id)
    requires forall c :: 0 <= c < |issued| ==> issued[c].RequestId().value < id
    requires forall t :: t in r.timers ==> r.timers[t].request < id
    ensures Calls.OneCallPerId(r, issued + [request], waiting + [|issued|])
  {
  }

  lemma FreshAfterAppend(s: State, c: Command)
    requires FreshIds(s) && !c.RpcCall?
    ensures FreshIds(s.(cmds := s.cmds + [c]))
  {
    AppendKeepsWaiting(s, c);
    assert WaitingCalls(s) + [] == WaitingCalls(s);
  }

  lemma FreshAfterPop(s: State)
    requires FreshIds(s) && s.cmds != [] && !s.cmds[0].RpcCall?
    ensures FreshIds(Pop(s))
  {
    PopWaiting(s);
    assert [] + WaitingCalls(Pop(s)) == WaitingCalls(Pop(s));
  }

  lemma FreshAfterRpcCall(lib: Library, s: State)
    requires Inv(s) && FreshIds(s) && s.cmds != [] && s.cmds[0].RpcCall?
    ensures FreshIds(HandleCommand(lib, s))
  {
    PopWaiting(s);
    var request, caller, waiting, popped := s.cmds[0].request, s.cmds[0].caller, WaitingCalls(s), Pop(s);
    assert waiting[0] == caller && waiting[1..] == WaitingCalls(popped);
    var id := request.RequestId().value;
    Calls.OneCallPerIdAfterRegister(s.calls, s.callers.issued, waiting, id);
    var s' := popped.(calls := Calls.Register(s.calls, id, caller));
    assert WaitingCalls(s') == WaitingCalls(popped);
    FreshAfterAppend(s', SendMessage(request, FromCall));
  }

  lemma FreshAfterSubscribe(lib: Library, s: State, ri: Ri, sub: nat)
    requires FreshIds(s)
    ensures FreshIds(HandleSubscribe(lib, s, ri, sub))
  {
    if s.version.Some? {
      var version, accepted := s.version.value, Subs.AcceptedRi(lib, s.version.value, ri);
      if accepted.Some? {
        var s' := s.(subs := Subs.AddNew(s.subs, accepted.value, sub, s.nextId), nextId := s.nextId + 1);
        assert WaitingCalls(s') == WaitingCalls(s);
        FreshAfterAppend(s', SendMessage(
          Subs.CreateSubscriptionRequest(accepted.value, Subs.Subscribing, version, s.nextId), FromSubscription));
      }
    }
  }

  lemma FreshAfterUnsubscribe(s: State, sub: nat)
    requires FreshIds(s)
    ensures FreshIds(HandleUnsubscribe(s, sub))
  {
    var orphaned := Subs.Orphaned(s.subs.table, sub);
    if s.version.Some? && orphaned.Some? {
      var s' := s.(subs := Subs.Remove(s.subs, sub), nextId := s.nextId + 1);
      assert WaitingCalls(s') == WaitingCalls(s);
      FreshAfterAppend(s', SendMessage(
        Subs.CreateSubscriptionRequest(orphaned.value, Subs.Unsubscribing, s.version.value, s.nextId),
        FromSubscription));
    }
  }

  lemma FreshAfterCommand(lib: Library, s: State)
    requires Inv(s) && FreshIds(s) && s.cmds != []
    ensures FreshIds(HandleCommand(lib, s))
  {
    match s.cmds[0]
    case RpcCall(_, _) => FreshAfterRpcCall(lib, s);
    case SendMessage(_, _) => FreshAfterPop(s);
    case TerminateClient => FreshAfterPop(s);
    case Unsubscribe(sub) =>
      FreshAfterPop(s);
      FreshAfterUnsubscribe(Pop(s), sub);
    case Subscribe(ri, sub) =>
      FreshAfterPop(s);
      FreshAfterSubscribe(lib, Pop(s), ri, sub);
  }

  lemma FreshAfterEvent(lib: Library, s: State, event: ConnEvent)
    requires Inv(s) && FreshIds(s)
    ensures FreshIds(HandleEvent(lib, s, event))
  {
    match event
    case RpcFrameReceived(frame) =>
      if frame.RequestFrame? && ClientNode.Route(lib, frame).Answer? {
        FreshAfterAppend(s, SendMessage(Response(Some(frame.requestId), ClientNode.Route(lib, frame).body), Reply));
      } else if frame.ResponseFrame? && frame.id.Some? && frame.body.None? {
        FreshAfterAppend(s, SendMessage(Response(frame.id, Error(ParseError)), Reply));
      } else if frame.ResponseFrame? && frame.id.Some? && frame.id.value in s.calls.pending {
        Calls.OneCallPerIdAfterDeliver(s.calls, s.callers.issued, WaitingCalls(s), frame.id.value, frame);
      }
    case HeartbeatTimeout =>
      if s.version.Some? {
        assert FreshIds(s.(nextId := s.nextId + 1));
        FreshAfterAppend(s.(nextId := s.nextId + 1), SendMessage(Ping(s.version.value, s.nextId), Heartbeat));
      }
    case _ =>
  }

  lemma FreshAfterCaller(lib: Library, s: State, a: Action)
    requires Inv(s) && FreshIds(s) && Enabled(s, a) && a.CallersOwn() && !a.RawRpcCall?
    ensures FreshIds(Next(lib, s, a))
  {
    match a
    case DoRpcCall(path, rpcMethod, param) => FreshAfterIssue(s, path, rpcMethod, param);
    case DoSendMessage(message) => FreshAfterAppend(s, SendMessage(message, Application));
    case DoSubscribe(ri) => FreshAfterAppend(s, Subscribe(ri, s.callers.nextSub));
    case DropSubscriber(sub) => FreshAfterAppend(s, Unsubscribe(sub));
    case DoTerminate => FreshAfterAppend(s, TerminateClient);
  }

  lemma FreshAfterTimer(lib: Library, s: State, a: Action)
    requires Inv(s) && FreshIds(s) && Enabled(s, a) && (a.TimerExpires? || a.TimerUpdated? || a.TimerClosed?)
    ensures FreshIds(Next(lib, s, a))
  {
  }

  lemma FreshAfterStep(lib: Library, s: State, a: Action)
    requires Inv(s) && FreshIds(s) && !a.RawRpcCall?
    ensures FreshIds(Step(lib, s, a))
  {
    if Enabled(s, a) {
      match a
      case NextCommand => FreshAfterCommand(lib, s);
      case NextEvent(event) => FreshAfterEvent(lib, s, event);
      case EventsClosed =>
      case VersionResult(_) =>
      case TimerExpires(_) => FreshAfterTimer(lib, s, a);
      case TimerUpdated(_) => FreshAfterTimer(lib, s, a);
      case TimerClosed(_) => FreshAfterTimer(lib, s, a);
      case _ => FreshAfterCaller(lib, s, a);
    }
  }

  lemma {:induction false} FreshAlways(lib: Library, run: seq<Action>)
    requires FreshRun(run)
    ensures FreshIds(After(lib, run))
  {
    if run != [] {
      var before := run[..|run| - 1];
      FreshAlways(lib, before);
      InvAlways(lib, before);
      FreshAfterStep(lib, After(lib, before), run[|run| - 1]);
    }
  }

  /** A timer left over from a finished call changes nothing when it fires: the timer goes, that is all. */
  lemma StaleTimersChangeNothing(lib: Library, run: seq<Action>, t: nat)
    requires FreshRun(run)
    requires After(lib, run).status.Running? && t in After(lib, run).calls.timers
    requires !Calls.Held(After(lib, run).calls, t)
    ensures
      var s := After(lib, run);
      Step(lib, s, TimerExpires(t)) == s.(calls := s.calls.(timers := s.calls.timers - {t}))
  {
    InvAlways(lib, run);
    FreshAlways(lib, run);
    var s := After(lib, run);
    Calls.StaleTimerIsHarmless(s.calls, s.callers.issued, WaitingCalls(s), t, Calls.TimeoutFrame(s.nextId));
  }

  lemma RegisteredTwice(lib: Library, s: State, m: Message)
    requires s.status.Running? && m.RequestId() == Some(7) && s.calls == Calls.NO_CALLS
    requires s.cmds == [RpcCall(m, 0)] + [RpcCall(m, 1)]
    ensures
      var s' := Step(lib, Step(lib, s, NextCommand), NextCommand);
      && 0 in s'.calls.timers && !Calls.Held(s'.calls, 0) && 7 in s'.calls.pending
      && 7 !in Step(lib, s', TimerExpires(0)).calls.pending
  {
    var s1 := Step(lib, s, NextCommand);
    assert s1.cmds == [RpcCall(m, 1)] + [SendMessage(m, FromCall)];
    var s' := Step(lib, s1, NextCommand);
    assert s'.calls.timers == map[0 := Calls.Timer(7, 0), 1 := Calls.Timer(7, 0)];
    assert s'.calls.pending == map[7 := Calls.Call(1, 1)];
  }

  /** Without fresh ids it can end the wrong call: a second call under the same id times out with the first's timer. */
  lemma ReusedIdsBreakTimers(lib: Library)
    ensures exists run, t ::
      var s := After(lib, run);
      && t in s.calls.timers && !Calls.Held(s.calls, t) && 7 in s.calls.pending
      && 7 !in Step(lib, s, TimerExpires(t)).calls.pending
  {
    var m := Request(Some(7), "a", "b", NoParam);
    var run0 := [RawRpcCall(m)];
    var run1 := run0 + [RawRpcCall(m)];
    var run2 := run1 + [NextCommand];
    var run3 := run2 + [NextCommand];
    OneMoreAction(lib, [], RawRpcCall(m));
    assert [] + [RawRpcCall(m)] == run0;
    OneMoreAction(lib, run0, RawRpcCall(m));
    OneMoreAction(lib, run1, NextCommand);
    OneMoreAction(lib, run2, NextCommand);
    RegisteredTwice(lib, After(lib, run1), m);
    assert 0 in After(lib, run3).calls.timers;
  }

  // --------------------------------------------------- requests and responses

  /** A parsed response with the id. */
  predicate Responds(a: Action, id: int) {
    a.NextEvent? && a.event.RpcFrameReceived? && a.event.frame.ResponseFrame?
    && a.event.frame.id == Some(id) && a.event.frame.body.Some?
  }

  /** A delay gives the call's timer one more update to restart on, so it cannot be taken for closed. */
  lemma DelayRestartsTimer(lib: Library, run: seq<Action>, id: int, frame: Frame)
    requires After(lib, run).status.Running? && id in After(lib, run).calls.pending
    requires Responds(NextEvent(RpcFrameReceived(frame)), id) && frame.IsDelay()
    ensures
      var s, s' := After(lib, run), Step(lib, After(lib, run), NextEvent(RpcFrameReceived(frame)));
      var t := s.calls.pending[id].timer;
      && t in s.calls.timers && t in s'.calls.timers
      && s'.calls.timers[t].updates == s.calls.timers[t].updates + 1
      && s'.calls.pending == s.calls.pending
      && Enabled(s', TimerUpdated(t)) && !Enabled(s', TimerClosed(t))
  {
    InvAlways(lib, run);
  }

  /** The ways a pending call stops being pending. */
  predicate EndsCall(s: State, a: Action, id: int) {
    || (Responds(a, id) && !a.event.frame.IsDelay())
    || a == NextEvent(Disconnected)
    || (id in s.calls.pending && a == TimerExpires(s.calls.pending[id].timer))
  }

  /** The call pending in `s` under `id` is still pending in `s'`, with `frames` more in its channel. */
  ghost predicate CallKept(s: State, s': State, id: int, frames: seq<Frame>)
    requires id in s.calls.pending
  {
    var call := s.calls.pending[id];
    && id in s'.calls.pending && s'.calls.pending[id] == call
    && Log(s'.calls.logs, call.caller) == Log(s.calls.logs, call.caller) + frames
  }

  lemma CallStaysAfterCommand(lib: Library, s: State, id: int)
    requires Inv(s) && FreshIds(s) && s.cmds != [] && id in s.calls.pending
    ensures CallKept(s, HandleCommand(lib, s), id, [])
  {
    if s.cmds[0].RpcCall? {
      PopWaiting(s);
      var waiting := WaitingCalls(s);
      assert waiting[0] == s.cmds[0].caller;
      Calls.OneCallPerIdAfterRegister(s.calls, s.callers.issued, waiting, s.cmds[0].request.RequestId().value);
    }
  }

  lemma CallStaysAfterDelivery(s: State, other: int, frame: Frame, id: int)
    requires Inv(s) && id in s.calls.pending && other in s.calls.pending && (other == id ==> frame.IsDelay())
    ensures CallKept(s, s.(calls := Calls.Deliver(s.calls, other, frame)), id, if other == id then [frame] else [])
  {
    assert s.callers.issued[s.calls.pending[id].caller].RequestId() == Some(id);
    assert s.callers.issued[s.calls.pending[other].caller].RequestId() == Some(other);
  }

  lemma CallStaysAfterFrame(lib: Library, s: State, frame: Frame, id: int)
    requires Inv(s) && id in s.calls.pending
    requires Responds(NextEvent(RpcFrameReceived(frame)), id) ==> frame.IsDelay()
    ensures CallKept(s, HandleFrame(lib, s, frame), id,
                     if Responds(NextEvent(RpcFrameReceived(frame)), id) then [frame] else [])
  {
    if frame.ResponseFrame? && frame.id.Some? && frame.body.Some? && frame.id.value in s.calls.pending {
      CallStaysAfterDelivery(s, frame.id.value, frame, id);
    } else {
      assert HandleFrame(lib, s, frame).calls == s.calls;
    }
  }

  lemma CallStaysOtherwise(lib: Library, s: State, a: Action, id: int)
    requires Inv(s) && FreshIds(s) && id in s.calls.pending && Enabled(s, a) && !EndsCall(s, a, id)
    requires !a.NextCommand? && !(a.NextEvent? && a.event.RpcFrameReceived?)
    ensures CallKept(s, Next(lib, s, a), id, [])
  {
    if a.TimerExpires? && s.calls.timers[a.timer].request in s.calls.pending {
      var other := s.calls.timers[a.timer].request;
      assert s.calls.pending[other].timer == a.timer && other != id;
      assert s.callers.issued[s.calls.pending[other].caller].RequestId() == Some(other);
      assert s.callers.issued[s.calls.pending[id].caller].RequestId() == Some(id);
    }
  }

  lemma CallStays(lib: Library, s: State, a: Action, id: int)
    requires Inv(s) && FreshIds(s) && id in s.calls.pending && !EndsCall(s, a, id)
    ensures CallKept(s, Step(lib, s, a), id, if Enabled(s, a) && Responds(a, id) then [a.event.frame] else [])
  {
    if Enabled(s, a) {
      if a.NextCommand? {
        CallStaysAfterCommand(lib, s, id);
      } else if a.NextEvent? && a.event.RpcFrameReceived? {
        CallStaysAfterFrame(lib, s, a.event.frame, id);
      } else {
        CallStaysOtherwise(lib, s, a, id);
      }
    }
  }

  /** The delays for `id` that a run brings in, in order. */
  function DelaysFor(run: seq<Action>, id: int): seq<Frame> {
    if run == [] then []
    else
      var a := run[|run| - 1];
      DelaysFor(run[..|run| - 1], id) + (if Responds(a, id) then [a.event.frame] else [])
  }

  /** `more` neither answers, times out nor disconnects the call pending in `s` under `id`. */
  ghost predicate Undisturbed(lib: Library, s: State, more: seq<Action>, id: int) {
    forall i :: 0 <= i < |more| ==> !more[i].RawRpcCall? && !EndsCall(AfterFrom(lib, s, more[..i]), more[i], id)
  }

  lemma CallStaysOneStep(lib: Library, s: State, a: Action, id: int)
    requires Inv(s) && FreshIds(s) && id in s.calls.pending && !EndsCall(s, a, id) && !a.RawRpcCall?
    requires Step(lib, s, a).status.Running?
    ensures Inv(Step(lib, s, a)) && FreshIds(Step(lib, s, a)) && s.status.Running?
    ensures CallKept(s, Step(lib, s, a), id, if Responds(a, id) then [a.event.frame] else [])
  {
    InvAfterStep(lib, s, a);
    FreshAfterStep(lib, s, a);
    CallStays(lib, s, a, id);
  }

  lemma CallKeptTwice(s: State, s': State, s'': State, id: int, frames: seq<Frame>, frames': seq<Frame>)
    requires id in s.calls.pending && CallKept(s, s', id, frames) && CallKept(s', s'', id, frames')
    ensures CallKept(s, s'', id, frames + frames')
  {
  }

  lemma RunningBefore(lib: Library, s: State, a: Action)
    requires Step(lib, s, a).status.Running?
    ensures s.status.Running?
  {
  }

  lemma {:induction false} CallStaysPending(lib: Library, s: State, more: seq<Action>, id: int)
    requires Inv(s) && FreshIds(s) && id in s.calls.pending && Undisturbed(lib, s, more, id)
    requires AfterFrom(lib, s, more).status.Running?
    ensures Inv(AfterFrom(lib, s, more)) && FreshIds(AfterFrom(lib, s, more))
    ensures CallKept(s, AfterFrom(lib, s, more), id, DelaysFor(more, id))
    decreases |more|
  {
    if more != [] {
      var n := |more| - 1;
      var before, a := AfterFrom(lib, s, more[..n]), more[n];
      assert forall i :: 0 <= i < n ==> more[..n][..i] == more[..i];
      RunningBefore(lib, before, a);
      CallStaysPending(lib, s, more[..n], id);
      CallStaysOneStep(lib, before, a, id);
      CallKeptTwice(s, before, Step(lib, before, a), id, DelaysFor(more[..n], id),
                    if Responds(a, id) then [a.event.frame] else []);
    }
  }

  lemma FinalResponseStep(lib: Library, s: State, id: int, frame: Frame)
    requires s.status.Running? && id in s.calls.pending
    requires Responds(NextEvent(RpcFrameReceived(frame)), id) && !frame.IsDelay()
    ensures
      var s' := Step(lib, s, NextEvent(RpcFrameReceived(frame)));
      var c := s.calls.pending[id].caller;
      Log(s'.calls.logs, c) == Log(s.calls.logs, c) + [frame] && id !in s'.calls.pending
  {
  }

  /**
   * The first final response to a registered request goes to its caller, after all the delays that came
   * before it, unless the call timed out or the connection was lost in between.
   */
  lemma FirstResponseReachesCaller(lib: Library, run: seq<Action>, more: seq<Action>, id: int, frame: Frame)
    requires FreshRun(run) && id in After(lib, run).calls.pending
    requires Undisturbed(lib, After(lib, run), more, id)
    requires AfterFrom(lib, After(lib, run), more).status.Running?
    requires Responds(NextEvent(RpcFrameReceived(frame)), id) && !frame.IsDelay()
    ensures
      var s, s' := After(lib, run), After(lib, run + more + [NextEvent(RpcFrameReceived(frame))]);
      var c := s.calls.pending[id].caller;
      && Log(s'.calls.logs, c) == Log(s.calls.logs, c) + DelaysFor(more, id) + [frame]
      && id !in s'.calls.pending
  {
    InvAlways(lib, run);
    FreshAlways(lib, run);
    CallStaysPending(lib, After(lib, run), more, id);
    RunsCompose(lib, run, more);
    FinalResponseStep(lib, After(lib, run + more), id, frame);
    OneMoreAction(lib, run + more, NextEvent(RpcFrameReceived(frame)));
  }

  /** A response is never given to anyone but the owner of its id. */
  lemma ResponsesGoToOwnersOnly(lib: Library, run: seq<Action>, id: int, frame: Frame, c: nat, sub: nat)
    requires frame.ResponseFrame? && frame.id == Some(id) && c < |After(lib, run).callers.issued|
    ensures
      var s := After(lib, run);
      var s' := Step(lib, s, NextEvent(RpcFrameReceived(frame)));
      && (Log(s'.calls.logs, c) != Log(s.calls.logs, c) ==> s.callers.issued[c].RequestId() == Some(id))
      && (Log(s'.subs.logs, sub) != Log(s.subs.logs, sub) ==> id in s.subs.requests && s.subs.requests[id] == sub)
      && (Log(s'.calls.logs, c) == Log(s.calls.logs, c) || Log(s'.subs.logs, sub) == Log(s.subs.logs, sub))
  {
    InvAlways(lib, run);
  }

  /** The step handles the RpcCall command of call `c` and enters its request among the pending ones. */
  predicate Registers(s: State, a: Action, request: Message, c: nat) {
    Enabled(s, a) && a.NextCommand? && s.cmds[0] == RpcCall(request, c) && request.RequestId().Some?
  }

  ghost predicate WasRegistered(lib: Library, run: seq<Action>, request: Message) {
    exists i, c :: 0 <= i < |run| && Registers(After(lib, run[..i]), run[i], request, c)
  }

  lemma RegisteredIsPending(lib: Library, s: State, request: Message, c: nat)
    requires Inv(s) && Registers(s, NextCommand, request, c)
    ensures
      var s', id := Step(lib, s, NextCommand), request.RequestId().value;
      && c < |s'.callers.issued| && s'.callers.issued[c] == request
      && id in s'.calls.pending && s'.calls.pending[id].caller == c && Log(s'.calls.logs, c) == []
  {
    PopWaiting(s);
    assert WaitingCalls(s)[0] == c;
    assert Calls.Accounted(s.calls, s.callers.issued, WaitingCalls(s), c);
  }

  lemma SubscriptionsQueueNoCalls(lib: Library, s: State, ri: Ri, sub: nat)
    ensures Queued(HandleSubscribe(lib, s, ri, sub).cmds, FromCall) == Queued(s.cmds, FromCall)
    ensures Queued(HandleUnsubscribe(s, sub).cmds, FromCall) == Queued(s.cmds, FromCall)
    ensures HandleSubscribe(lib, s, ri, sub).sent == s.sent && HandleUnsubscribe(s, sub).sent == s.sent
  {
    var cmds, cmds' := HandleSubscribe(lib, s, ri, sub).cmds, HandleUnsubscribe(s, sub).cmds;
    if cmds != s.cmds { QueuedAppend(s.cmds, cmds[|s.cmds|], FromCall); }
    if cmds' != s.cmds { QueuedAppend(s.cmds, cmds'[|s.cmds|], FromCall); }
  }

  lemma CommandQueuesCalls(lib: Library, s: State)
    requires s.cmds != []
    ensures
      var s' := HandleCommand(lib, s);
      && Queued(s'.cmds, FromCall) == Queued(s.cmds[1..], FromCall) + IdentifiedCallOf(s.cmds[0])
      && SentBy(s'.sent, FromCall) + Queued(s.cmds[1..], FromCall)
         == SentBy(s.sent, FromCall) + Queued(s.cmds, FromCall)
  {
    var popped := Pop(s);
    var queued := Queued(popped.cmds, FromCall);
    assert queued + [] == queued && [] + queued == queued;
    match s.cmds[0]
    case RpcCall(request, c) => QueuedAppend(popped.cmds, SendMessage(request, FromCall), FromCall);
    case SendMessage(_, _) => SendMoves(s.cmds, s.sent, s.conn, FromCall);
    case Subscribe(ri, sub) => SubscriptionsQueueNoCalls(lib, popped, ri, sub);
    case Unsubscribe(sub) => SubscriptionsQueueNoCalls(lib, popped, Ri("", "", None), sub);
    case TerminateClient =>
  }

  lemma NewQueuedByCommand(lib: Library, s: State, m: Message)
    requires s.cmds != []
    requires var s' := HandleCommand(lib, s); m in Queued(s'.cmds, FromCall) || m in SentBy(s'.sent, FromCall)
    requires m !in Queued(s.cmds, FromCall) && m !in SentBy(s.sent, FromCall)
    ensures s.cmds[0].RpcCall? && s.cmds[0].request == m && m.RequestId().Some?
  {
    var s' := HandleCommand(lib, s);
    CommandQueuesCalls(lib, s);
    assert m !in SentBy(s.sent, FromCall) + Queued(s.cmds, FromCall);
    assert m !in SentBy(s'.sent, FromCall) + Queued(s.cmds[1..], FromCall);
    assert m !in SentBy(s'.sent, FromCall) && m !in Queued(s.cmds[1..], FromCall);
  }

  /** Apart from handling a command, a step posts at most one, and never on behalf of a call or a subscription. */
  lemma AppendsOneAtMost(lib: Library, s: State, a: Action)
    requires !a.NextCommand?
    ensures
      var s' := Step(lib, s, a);
      && s'.sent == s.sent
      && (s'.cmds == s.cmds
          || (s.cmds < s'.cmds && |s'.cmds| == |s.cmds| + 1 && s'.cmds == s.cmds + [s'.cmds[|s.cmds|]]
              && (s'.cmds[|s.cmds|].SendMessage? ==> s'.cmds[|s.cmds|].origin !in {FromCall, FromSubscription})))
  {
  }

  lemma NothingQueuedOtherwise(lib: Library, s: State, a: Action)
    requires !a.NextCommand?
    ensures Queued(Step(lib, s, a).cmds, FromCall) == Queued(s.cmds, FromCall)
    ensures Step(lib, s, a).sent == s.sent
  {
    AppendsOneAtMost(lib, s, a);
    var cmds := Step(lib, s, a).cmds;
    if cmds != s.cmds {
      QueuedAppend(s.cmds, cmds[|s.cmds|], FromCall);
    }
  }

  lemma NewQueuedCall(lib: Library, s: State, a: Action, m: Message)
    requires var s' := Step(lib, s, a); m in Queued(s'.cmds, FromCall) || m in SentBy(s'.sent, FromCall)
    requires m !in Queued(s.cmds, FromCall) && m !in SentBy(s.sent, FromCall)
    ensures exists c :: Registers(s, a, m, c)
  {
    if a.NextCommand? {
      NewQueuedByCommand(lib, s, m);
      assert Registers(s, a, m, s.cmds[0].caller);
    } else {
      NothingQueuedOtherwise(lib, s, a);
    }
  }

  /** Every request that reaches the queue or the connection for an RpcCall was registered by an earlier step. */
  lemma {:induction false} RegistrationPrecedesWire(lib: Library, run: seq<Action>, m: Message)
    requires var s := After(lib, run); m in Queued(s.cmds, FromCall) || m in SentBy(s.sent, FromCall)
    ensures WasRegistered(lib, run, m)
  {
    var n := |run| - 1;
    var before := After(lib, run[..n]);
    if m in Queued(before.cmds, FromCall) || m in SentBy(before.sent, FromCall) {
      RegistrationPrecedesWire(lib, run[..n], m);
      var i, c :| 0 <= i < n && Registers(After(lib, run[..n][..i]), run[..n][i], m, c);
      assert run[..n][..i] == run[..i];
    } else {
      NewQueuedCall(lib, before, run[n], m);
    }
  }

  lemma SentByTail(sent: seq<Sent>, mark: nat, origin: Origin, m: Message)
    requires mark <= |sent| && m in SentBy(sent[mark..], origin)
    ensures m in SentBy(sent, origin)
    decreases |sent|
  {
    var init, x := sent[..|sent| - 1], sent[|sent| - 1];
    assert sent == init + [x] && sent[mark..] == init[mark..] + [x];
    SentAppend(init, x, origin);
    SentAppend(init[mark..], x, origin);
    if m in SentBy(init[mark..], origin) {
      SentByTail(init, mark, origin, m);
    }
  }

  lemma PendingOnceRegistered(lib: Library, run: seq<Action>, i: nat, request: Message, c: nat)
    requires i < |run| && Registers(After(lib, run[..i]), run[i], request, c)
    ensures
      var s, id := After(lib, run[..i + 1]), request.RequestId().value;
      id in s.calls.pending && s.calls.pending[id].caller == c && Log(s.calls.logs, c) == []
  {
    PrefixStep(lib, run, i);
    InvAlways(lib, run[..i]);
    RegisteredIsPending(lib, After(lib, run[..i]), request, c);
  }

  /** From the registration of a call on, the first final response goes to its caller, after the delays before it. */
  lemma RegisteredCallGetsAnswer(lib: Library, run: seq<Action>, i: nat, request: Message, c: nat,
                                 more: seq<Action>, frame: Frame)
    requires FreshRun(run) && i < |run| && Registers(After(lib, run[..i]), run[i], request, c)
    requires Undisturbed(lib, After(lib, run[..i + 1]), run[i + 1..] + more, request.RequestId().value)
    requires After(lib, run + more).status.Running?
    requires Responds(NextEvent(RpcFrameReceived(frame)), request.RequestId().value) && !frame.IsDelay()
    ensures Log(After(lib, run + more + [NextEvent(RpcFrameReceived(frame))]).calls.logs, c)
         == DelaysFor(run[i + 1..] + more, request.RequestId().value) + [frame]
  {
    var upto, rest, id := run[..i + 1], run[i + 1..] + more, request.RequestId().value;
    PendingOnceRegistered(lib, run, i, request, c);
    assert upto + rest == run + more;
    RunsCompose(lib, upto, rest);
    assert FreshRun(upto);
    FirstResponseReachesCaller(lib, upto, rest, id, frame);
    assert [] + DelaysFor(rest, id) + [frame] == DelaysFor(rest, id) + [frame];
  }

  /**
   * Every call request handed to the connection in use was registered by an earlier step, and the first final
   * response to it after that goes to its caller, after the delays before it, unless the call timed out or the
   * connection was lost since.
   */
  lemma HandedOverCallGetsAnswer(lib: Library, run: seq<Action>, request: Message) returns (i: nat, c: nat)
    requires FreshRun(run) && request in SentBy(HandedOver(After(lib, run)), FromCall)
    ensures i < |run| && Registers(After(lib, run[..i]), run[i], request, c)
    ensures forall more, frame ::
              && Undisturbed(lib, After(lib, run[..i + 1]), run[i + 1..] + more, request.RequestId().value)
              && After(lib, run + more).status.Running?
              && Responds(NextEvent(RpcFrameReceived(frame)), request.RequestId().value) && !frame.IsDelay() ==>
                Log(After(lib, run + more + [NextEvent(RpcFrameReceived(frame))]).calls.logs, c)
                == DelaysFor(run[i + 1..] + more, request.RequestId().value) + [frame]
  {
    var s := After(lib, run);
    SentByTail(s.sent, s.mark, FromCall, request);
    RegistrationPrecedesWire(lib, run, request);
    i, c :| 0 <= i < |run| && Registers(After(lib, run[..i]), run[i], request, c);
    forall more, frame |
        && Undisturbed(lib, After(lib, run[..i + 1]), run[i + 1..] + more, request.RequestId().value)
        && After(lib, run + more).status.Running?
        && Responds(NextEvent(RpcFrameReceived(frame)), request.RequestId().value) && !frame.IsDelay()
      ensures Log(After(lib, run + more + [NextEvent(RpcFrameReceived(frame))]).calls.logs, c)
           == DelaysFor(run[i + 1..] + more, request.RequestId().value) + [frame]
    {
      RegisteredCallGetsAnswer(lib, run, i, request, c, more, frame);
    }
  }
}
