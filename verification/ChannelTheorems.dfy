/** Response and notification channels over whole runs, up to and including the end of the loop. */
module ChannelTheorems {
  import opened Basics
  import opened Wire
  import opened Client
  import opened ClientSafety
  import Calls = RpcCalls
  import Subs = Subscriptions
  import CallTheorems
  import SubscriptionTheorems

  /** The command queue or the pending entries hold a sender of the call's channel. */
  predicate Holds(s: State, c: nat)
    requires c < |s.callers.issued|
  {
    c in WaitingCalls(s) || Calls.IsPending(s.calls, s.callers.issued, c)
  }

  /** The channel may still get frames. When the loop ends it drops every sender it holds. */
  predicate Open(s: State, c: nat)
    requires c < |s.callers.issued|
  {
    s.status.Running? && Holds(s, c)
  }

  /** The step ends the loop: by command, because the connection task is gone, or by panic. */
  predicate EndsLoop(s: State, a: Action) {
    || a.EventsClosed?
    || (a.NextCommand? && s.cmds != []
        && (s.cmds[0].TerminateClient? || (s.cmds[0].Unsubscribe? && s.version.None?)))
  }

  /** The step lets go of the call's channel without having sent a final frame. */
  predicate Drops(lib: Library, s: State, a: Action, c: nat) {
    && Enabled(s, a) && c < |s.callers.issued|
    && (|| (a == NextEvent(Disconnected) && Calls.IsPending(s.calls, s.callers.issued, c))
        || (EndsLoop(s, a) && Holds(s, c))
        || (a.NextCommand? && s.cmds[0] == RpcCall(s.callers.issued[c], c)
            && s.callers.issued[c].RequestId().None? && !lib.answersIdless))
  }

  /** The channel was let go of like that. */
  predicate Dropped(s: State, c: nat)
    requires c < |s.callers.issued|
  {
    c in s.calls.abandoned || (!s.status.Running? && Holds(s, c))
  }

  lemma EndsLoopExactly(lib: Library, s: State, a: Action)
    requires Inv(s) && Enabled(s, a)
    ensures Step(lib, s, a).status.Running? <==> !EndsLoop(s, a)
  {
    if a.NextCommand? && s.cmds[0].Subscribe? {
      InvAfterSubscribe(lib, s);
    }
  }

  lemma DroppedByDisconnect(lib: Library, s: State, c: nat)
    requires Inv(s) && s.status.Running? && c < |s.callers.issued|
    ensures Dropped(HandleEvent(lib, s, Disconnected), c)
       <==> c in s.calls.abandoned || Calls.IsPending(s.calls, s.callers.issued, c)
  {
    assert c in Calls.Clear(s.calls).abandoned <==> c in s.calls.abandoned || c in Calls.PendingCallers(s.calls);
    if c in Calls.PendingCallers(s.calls) {
      var id :| id in s.calls.pending && s.calls.pending[id].caller == c;
      assert s.callers.issued[c].RequestId() == Some(id);
    }
    if Calls.IsPending(s.calls, s.callers.issued, c) {
      var id := s.callers.issued[c].RequestId().value;
      assert id in s.calls.pending && s.calls.pending[id].caller == c;
      assert c in Calls.PendingCallers(s.calls);
    }
  }

  /** Only calls without a request id are abandoned by a command. */
  lemma AbandonedByCommand(lib: Library, s: State, c: nat)
    requires QueueMatchesIssued(s) && s.cmds != [] && c < |s.callers.issued|
    ensures c in HandleCommand(lib, s).calls.abandoned
       <==> c in s.calls.abandoned
            || (s.cmds[0] == RpcCall(s.callers.issued[c], c)
                && s.callers.issued[c].RequestId().None? && !lib.answersIdless)
    ensures HandleCommand(lib, s).callers == s.callers
  {
  }

  lemma EndingKeepsSenders(lib: Library, s: State, a: Action, c: nat)
    requires Inv(s) && Enabled(s, a) && EndsLoop(s, a) && c < |s.callers.issued|
    ensures Step(lib, s, a).calls == s.calls && WaitingCalls(Step(lib, s, a)) == WaitingCalls(s)
    ensures Step(lib, s, a).callers == s.callers
  {
    if a.NextCommand? {
      PopWaiting(s);
      assert [] + WaitingCalls(Pop(s)) == WaitingCalls(Pop(s));
    }
  }

  lemma AbandonedOtherwise(lib: Library, s: State, a: Action)
    requires Enabled(s, a) && !a.NextCommand? && a != NextEvent(Disconnected)
    ensures Step(lib, s, a).calls.abandoned == s.calls.abandoned
    ensures s.callers.issued <= Step(lib, s, a).callers.issued
  {
  }

  lemma DroppedStep(lib: Library, s: State, a: Action, c: nat)
    requires Inv(s) && c < |s.callers.issued|
    ensures c < |Step(lib, s, a).callers.issued|
    ensures Dropped(Step(lib, s, a), c) <==> Dropped(s, c) || Drops(lib, s, a, c)
  {
    if Enabled(s, a) {
      EndsLoopExactly(lib, s, a);
      if EndsLoop(s, a) {
        EndingKeepsSenders(lib, s, a, c);
      } else if a.NextCommand? {
        AbandonedByCommand(lib, s, c);
      } else if a == NextEvent(Disconnected) {
        DroppedByDisconnect(lib, s, c);
      } else {
        AbandonedOtherwise(lib, s, a);
      }
    }
  }

  lemma NewCallIsNotDropped(lib: Library, s: State, a: Action, c: nat)
    requires Inv(s) && |s.callers.issued| <= c < |Step(lib, s, a).callers.issued|
    ensures !Dropped(Step(lib, s, a), c)
  {
    assert Enabled(s, a) && (a.DoRpcCall? || a.RawRpcCall?);
  }

  lemma DroppedAtPrefix(lib: Library, run: seq<Action>, c: nat, i: nat)
    requires i < |run|
    ensures WasDropped(After(lib, run[..i + 1]), c)
       <==> WasDropped(After(lib, run[..i]), c) || Drops(lib, After(lib, run[..i]), run[i], c)
  {
    var s := After(lib, run[..i]);
    PrefixStep(lib, run, i);
    InvAlways(lib, run[..i]);
    if c < |s.callers.issued| {
      DroppedStep(lib, s, run[i], c);
    } else if c < |Step(lib, s, run[i]).callers.issued| {
      NewCallIsNotDropped(lib, s, run[i], c);
    }
  }

  predicate WasDropped(s: State, c: nat) { c < |s.callers.issued| && Dropped(s, c) }

  lemma {:induction false} DropLasts(lib: Library, run: seq<Action>, c: nat, i: nat, j: nat)
    requires i < j <= |run| && Drops(lib, After(lib, run[..i]), run[i], c)
    ensures WasDropped(After(lib, run[..j]), c)
    decreases j
  {
    DroppedAtPrefix(lib, run, c, j - 1);
    if i < j - 1 {
      DropLasts(lib, run, c, i, j - 1);
    }
  }

  lemma {:induction false} DroppedHasCause(lib: Library, run: seq<Action>, c: nat, j: nat) returns (i: nat)
    requires j <= |run| && WasDropped(After(lib, run[..j]), c)
    ensures i < j && Drops(lib, After(lib, run[..i]), run[i], c)
    decreases j
  {
    assert j > 0 by {
      assert run[..0] == [];
    }
    DroppedAtPrefix(lib, run, c, j - 1);
    if WasDropped(After(lib, run[..j - 1]), c) {
      i := DroppedHasCause(lib, run, c, j - 1);
    } else {
      i := j - 1;
    }
  }

  lemma DroppedExactly(lib: Library, run: seq<Action>, c: nat)
    requires c < |After(lib, run).callers.issued|
    ensures Dropped(After(lib, run), c)
       <==> exists i :: 0 <= i < |run| && Drops(lib, After(lib, run[..i]), run[i], c)
  {
    assert run[..|run|] == run;
    if Dropped(After(lib, run), c) {
      var i := DroppedHasCause(lib, run, c, |run|);
    }
    if i :| 0 <= i < |run| && Drops(lib, After(lib, run[..i]), run[i], c) {
      DropLasts(lib, run, c, i, |run|);
    }
  }

  /**
   * On every run a call channel carries delays of its own request and then at most one final frame. While it
   * is open there are only delays, and a call whose command is still queued has nothing.
   */
  lemma CallChannels(lib: Library, run: seq<Action>, c: nat)
    requires c < |After(lib, run).callers.issued|
    ensures
      var s := After(lib, run);
      var request, log := s.callers.issued[c], Log(s.calls.logs, c);
      && (Calls.AllDelays(request, log) || Calls.Finished(request, log))
      && (Open(s, c) ==> Calls.AllDelays(request, log))
      && (c in WaitingCalls(s) ==> log == [] && !Calls.IsPending(s.calls, s.callers.issued, c))
  {
    InvAlways(lib, run);
    var s := After(lib, run);
    assert Calls.Accounted(s.calls, s.callers.issued, WaitingCalls(s), c);
  }

  lemma NotBoth(request: Message, log: seq<Frame>)
    requires Calls.Finished(request, log)
    ensures !Calls.AllDelays(request, log)
  {
    assert !log[|log| - 1].IsDelay();
  }

  /**
   * A channel that is no longer open holds a final frame, unless the connection was lost while the call was
   * pending, or the loop ended while the call was queued or pending, or the request had no id and could not
   * be answered. In those cases, and in no others, the caller gets delays only.
   */
  lemma UnansweredExactly(lib: Library, run: seq<Action>, c: nat)
    requires c < |After(lib, run).callers.issued| && !Open(After(lib, run), c)
    ensures
      var s := After(lib, run);
      var request, log := s.callers.issued[c], Log(s.calls.logs, c);
      && (Calls.Finished(request, log) <==> !Calls.AllDelays(request, log))
      && (Calls.AllDelays(request, log)
          <==> exists i :: 0 <= i < |run| && Drops(lib, After(lib, run[..i]), run[i], c))
  {
    InvAlways(lib, run);
    CallChannels(lib, run, c);
    DroppedExactly(lib, run, c);
    var s := After(lib, run);
    var request, log := s.callers.issued[c], Log(s.calls.logs, c);
    assert Calls.Accounted(s.calls, s.callers.issued, WaitingCalls(s), c);
    if Calls.Finished(request, log) {
      NotBoth(request, log);
    }
  }

  /** With ids from `new_request` the third case does not arise: the connection is lost or the loop ends. */
  lemma FreshCallsAreDroppedByEndsOnly(lib: Library, run: seq<Action>, i: nat, c: nat)
    requires CallTheorems.FreshRun(run) && i < |run| && Drops(lib, After(lib, run[..i]), run[i], c)
    ensures run[i] == NextEvent(Disconnected) || EndsLoop(After(lib, run[..i]), run[i])
  {
    CallTheorems.FreshAlways(lib, run[..i]);
  }

  /** For instance: a call registered, sent and then cut off. Its channel is closed and empty. */
  lemma DisconnectLeavesCallUnanswered(lib: Library, path: string, rpcMethod: string, param: Param)
    ensures
      var run := CutOffRun(path, rpcMethod, param);
      var s := After(lib, run + [NextEvent(Disconnected)]);
      && |s.callers.issued| == 1 && s.status.Running? && !Open(s, 0) && Log(s.calls.logs, 0) == []
      && Drops(lib, After(lib, run), NextEvent(Disconnected), 0)
      && s.callers.issued[0] in SentBy(HandedOver(After(lib, run)), FromCall)
  {
    var request := Request(Some(1), path, rpcMethod, param);
    var run0 := [NextEvent(Connected(0))];
    var run1 := run0 + [DoRpcCall(path, rpcMethod, param)];
    var run2 := run1 + [NextCommand];
    OneMoreAction(lib, [], NextEvent(Connected(0)));
    assert [] + [NextEvent(Connected(0))] == run0;
    OneMoreAction(lib, run0, DoRpcCall(path, rpcMethod, param));
    assert After(lib, run1).cmds == [RpcCall(request, 0)] && After(lib, run1).calls == Calls.NO_CALLS;
    OneMoreAction(lib, run1, NextCommand);
    OneMoreAction(lib, run2, NextCommand);
    CallIsSent(lib, After(lib, run1), request);
    CutOff(lib, After(lib, CutOffRun(path, rpcMethod, param)), request);
    OneMoreAction(lib, CutOffRun(path, rpcMethod, param), NextEvent(Disconnected));
  }

  function CutOffRun(path: string, rpcMethod: string, param: Param): seq<Action> {
    [NextEvent(Connected(0))] + [DoRpcCall(path, rpcMethod, param)] + [NextCommand] + [NextCommand]
  }

  /** The call's request was handed over, and nothing has come back. */
  predicate SentAlone(s: State, request: Message) {
    && s.status.Running? && s.cmds == [] && s.callers.issued == [request] && request.RequestId().Some?
    && s.calls.pending == map[request.RequestId().value := Calls.Call(0, 0)] && Log(s.calls.logs, 0) == []
    && s.conn.Some? && HandedOver(s) == [Sent(request, FromCall, s.conn)]
  }

  lemma CallIsSent(lib: Library, s: State, request: Message)
    requires s.status.Running? && s.conn.Some? && s.cmds == [RpcCall(request, 0)] && s.callers.issued == [request]
    requires request.RequestId().Some? && s.calls == Calls.NO_CALLS && s.sent == [] && s.mark == 0
    ensures SentAlone(Step(lib, Step(lib, s, NextCommand), NextCommand), request)
  {
    var s1 := Step(lib, s, NextCommand);
    assert s1.cmds == [SendMessage(request, FromCall)];
    var s2 := Step(lib, s1, NextCommand);
    assert s2.cmds == [] && s2.calls == s1.calls;
    assert s2.sent == [Sent(request, FromCall, s.conn)];
  }

  lemma CutOff(lib: Library, s: State, request: Message)
    requires SentAlone(s, request)
    ensures
      var s' := Step(lib, s, NextEvent(Disconnected));
      && s'.callers.issued == [request] && s'.status.Running? && !Open(s', 0) && Log(s'.calls.logs, 0) == []
      && Drops(lib, s, NextEvent(Disconnected), 0) && request in SentBy(HandedOver(s), FromCall)
  {
    assert WaitingCalls(s) == [];
    assert HandedOver(s) == [] + [Sent(request, FromCall, s.conn)];
    SentAppend([], Sent(request, FromCall, s.conn), FromCall);
  }

  // -------------------------------------------------- notification channels

  /** The loop holds a sender of the subscription's channel: in the queued command, or in the table. */
  predicate NotificationsOpen(s: State, sub: nat) {
    s.status.Running? && (sub in WaitingSubs(s) || Subs.HasId(s.subs.table, sub))
  }

  /** The step takes the sender away from a subscription that has had no answer. */
  predicate CutsOff(s: State, a: Action, sub: nat) {
    && Enabled(s, a)
    && (|| (EndsLoop(s, a) && (sub in WaitingSubs(s) || SubscriptionTheorems.Unconfirmed(s.subs.table, sub)))
        || (a == NextEvent(Disconnected) && SubscriptionTheorems.Unconfirmed(s.subs.table, sub))
        || (a.NextCommand? && s.cmds[0] == Unsubscribe(sub) && s.version.Some?
            && SubscriptionTheorems.Unconfirmed(s.subs.table, sub)))
  }

  /** The channel is closed, and nothing was ever sent into it. */
  predicate ClosedSilently(s: State, sub: nat) {
    sub < s.callers.nextSub && !NotificationsOpen(s, sub) && Log(s.subs.logs, sub) == []
  }

  lemma CutsOffIsRemoving(lib: Library, s: State, a: Action, sub: nat)
    requires Enabled(s, a) && !EndsLoop(s, a)
    ensures CutsOff(s, a, sub)
       <==> SubscriptionTheorems.Removing(SubscriptionTheorems.EffectOf(lib, s, a), sub)
            && SubscriptionTheorems.Unconfirmed(s.subs.table, sub)
  {
  }

  lemma UnconfirmedIsSilent(s: State, sub: nat)
    requires Inv(s) && Subs.HasId(s.subs.table, sub)
    ensures SubscriptionTheorems.Unconfirmed(s.subs.table, sub) <==> Log(s.subs.logs, sub) == []
    ensures sub < s.callers.nextSub
  {
    var k :| 0 <= k < |s.subs.table| && s.subs.table[k].id == sub;
  }

  lemma WaitingIsSilent(s: State, sub: nat)
    requires Inv(s) && sub in WaitingSubs(s)
    ensures Log(s.subs.logs, sub) == [] && sub < s.callers.nextSub
  {
    var k :| 0 <= k < |WaitingSubs(s)| && WaitingSubs(s)[k] == sub;
  }

  lemma EndingKeepsSubscriptions(lib: Library, s: State, a: Action)
    requires Inv(s) && Enabled(s, a) && EndsLoop(s, a)
    ensures Step(lib, s, a).subs == s.subs && Step(lib, s, a).callers == s.callers
    ensures !Step(lib, s, a).status.Running?
  {
  }

  lemma ClosedByEnding(lib: Library, s: State, a: Action, sub: nat)
    requires Inv(s) && Enabled(s, a) && EndsLoop(s, a)
    ensures ClosedSilently(Step(lib, s, a), sub) <==> ClosedSilently(s, sub) || CutsOff(s, a, sub)
  {
    EndingKeepsSubscriptions(lib, s, a);
    if sub in WaitingSubs(s) {
      WaitingIsSilent(s, sub);
    }
    if Subs.HasId(s.subs.table, sub) {
      UnconfirmedIsSilent(s, sub);
    }
  }

  lemma ClosedIsSilentView(s: State, sub: nat)
    requires s.status.Running?
    ensures ClosedSilently(s, sub) <==> SubscriptionTheorems.SilentView(SubscriptionTheorems.ViewOf(s), sub)
  {
  }

  lemma ClosedStep(lib: Library, s: State, a: Action, sub: nat)
    requires Inv(s)
    ensures ClosedSilently(Step(lib, s, a), sub) <==> ClosedSilently(s, sub) || CutsOff(s, a, sub)
  {
    if Enabled(s, a) {
      if EndsLoop(s, a) {
        ClosedByEnding(lib, s, a, sub);
      } else {
        EndsLoopExactly(lib, s, a);
        SubscriptionTheorems.StepHasEffect(lib, s, a);
        SubscriptionTheorems.SilentUnderEffect(lib, SubscriptionTheorems.ViewOf(s),
                                               SubscriptionTheorems.EffectOf(lib, s, a), sub);
        CutsOffIsRemoving(lib, s, a, sub);
        ClosedIsSilentView(s, sub);
        ClosedIsSilentView(Step(lib, s, a), sub);
      }
    }
  }

  lemma ClosedAtPrefix(lib: Library, run: seq<Action>, sub: nat, i: nat)
    requires i < |run|
    ensures ClosedSilently(After(lib, run[..i + 1]), sub)
       <==> ClosedSilently(After(lib, run[..i]), sub) || CutsOff(After(lib, run[..i]), run[i], sub)
  {
    PrefixStep(lib, run, i);
    InvAlways(lib, run[..i]);
    ClosedStep(lib, After(lib, run[..i]), run[i], sub);
  }

  lemma {:induction false} CutOffLasts(lib: Library, run: seq<Action>, sub: nat, i: nat, j: nat)
    requires i < j <= |run| && CutsOff(After(lib, run[..i]), run[i], sub)
    ensures ClosedSilently(After(lib, run[..j]), sub)
    decreases j
  {
    ClosedAtPrefix(lib, run, sub, j - 1);
    if i < j - 1 {
      CutOffLasts(lib, run, sub, i, j - 1);
    }
  }

  lemma {:induction false} ClosedHasCause(lib: Library, run: seq<Action>, sub: nat, j: nat) returns (i: nat)
    requires j <= |run| && ClosedSilently(After(lib, run[..j]), sub)
    ensures i < j && CutsOff(After(lib, run[..i]), run[i], sub)
    decreases j
  {
    assert j > 0 by {
      assert run[..0] == [];
    }
    ClosedAtPrefix(lib, run, sub, j - 1);
    if ClosedSilently(After(lib, run[..j - 1]), sub) {
      i := ClosedHasCause(lib, run, sub, j - 1);
    } else {
      i := j - 1;
    }
  }

  /**
   * On every run a notification channel is closed without a single frame if and only if the connection was lost or
   * its Unsubscribe handled while its request was unanswered, or the loop ended while it was queued or unanswered.
   */
  lemma SubscriptionUnansweredExactly(lib: Library, run: seq<Action>, sub: nat)
    ensures ClosedSilently(After(lib, run), sub)
       <==> exists i :: 0 <= i < |run| && CutsOff(After(lib, run[..i]), run[i], sub)
  {
    assert run[..|run|] == run;
    if ClosedSilently(After(lib, run), sub) {
      var i := ClosedHasCause(lib, run, sub, |run|);
    }
    if i :| 0 <= i < |run| && CutsOff(After(lib, run[..i]), run[i], sub) {
      CutOffLasts(lib, run, sub, i, |run|);
    }
  }

  /**
   * No timer ends the wait for an answer: as long as there is none, and neither a disconnect nor an Unsubscribe, the
   * channel stays open and empty, however long the run.
   */
  lemma UnansweredSubscriptionWaits(lib: Library, run: seq<Action>, more: seq<Action>, request: int, sub: nat, ri: Ri)
    requires CallTheorems.FreshRun(run)
    requires SubscriptionTheorems.Awaiting(SubscriptionTheorems.ViewOf(After(lib, run)), request, sub, ri)
    requires SubscriptionTheorems.StillAwaiting(lib, After(lib, run), more, request, sub)
    requires After(lib, run + more).status.Running?
    ensures
      var s := After(lib, run + more);
      NotificationsOpen(s, sub) && Log(s.subs.logs, sub) == []
  {
    InvAlways(lib, run);
    CallTheorems.FreshAlways(lib, run);
    SubscriptionTheorems.StaysAwaiting(lib, After(lib, run), more, request, sub, ri);
    RunsCompose(lib, run, more);
    AwaitingIsSilent(After(lib, run + more), request, sub, ri);
  }

  lemma AwaitingIsSilent(s: State, request: int, sub: nat, ri: Ri)
    requires Inv(s) && SubscriptionTheorems.Awaiting(SubscriptionTheorems.ViewOf(s), request, sub, ri)
    ensures Subs.HasId(s.subs.table, sub) && Log(s.subs.logs, sub) == []
  {
    var k :| 0 <= k < |s.subs.table| && s.subs.table[k] == Subs.Entry(false, sub, ri);
  }
}
