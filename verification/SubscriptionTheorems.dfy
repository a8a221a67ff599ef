/** Subscriptions over whole runs: what a subscriber sees, confirmation bookkeeping, panics. */
module SubscriptionTheorems {
  import opened Basics
  import opened Wire
  import opened Client
  import opened ClientSafety
  import Calls = RpcCalls
  import Paths
  import Subs = Subscriptions
  import CallTheorems

  // ------------------------------------------------------------- bookkeeping

  /** The three tables agree on every run. */
  lemma Bookkeeping(lib: Library, run: seq<Action>)
    ensures
      var s := After(lib, run);
      var table, requests := s.subs.table, s.subs.requests;
      && (forall i, j :: 0 <= i < j < |table| ==> table[i].id != table[j].id)
      && (forall q, q' :: q in requests && q' in requests && requests[q] == requests[q'] ==> q == q')
      && (forall k :: 0 <= k < |table| ==>
            (table[k].confirmed <==> !exists q :: q in requests && requests[q] == table[k].id))
      && (table != [] ==> s.version.Some?)
      && (CallTheorems.FreshRun(run) ==> requests.Keys !! s.calls.pending.Keys)
  {
    InvAlways(lib, run);
    var s := After(lib, run);
    assert forall k :: 0 <= k < |s.subs.table| ==>
      (Subs.Outstanding(s.subs, s.subs.table[k].id)
       <==> exists q :: q in s.subs.requests && s.subs.requests[q] == s.subs.table[k].id);
    if CallTheorems.FreshRun(run) {
      CallTheorems.FreshAlways(lib, run);
      forall id | id in s.calls.pending ensures id !in s.subs.requests {
        assert s.callers.issued[s.calls.pending[id].caller].RequestId() == Some(id);
      }
    }
  }

  /** The requests made since the table was last cleared alternate for each RI and amount to the table. */
  lemma RequestsAlternateAndReplay(lib: Library, run: seq<Action>, ri: Ri)
    ensures
      var subs := After(lib, run).subs;
      && Subs.Alternates(Subs.KindsFor(subs.emitted, ri))
      && Subs.Replay(subs.emitted) == Subs.Ris(subs.table)
      && (ri in Subs.Ris(subs.table) <==> |Subs.KindsFor(subs.emitted, ri)| % 2 == 1)
  {
    InvAlways(lib, run);
    var subs := After(lib, run).subs;
    assert Subs.OrderlyFor(subs.emitted, Subs.Ris(subs.table), ri);
  }

  // ---------------------------------------------------- a subscription's life

  predicate ConfirmedIn(s: State, sub: nat, ri: Ri) {
    Subs.Entry(true, sub, ri) in s.subs.table
  }

  /** Its command was handled and the table does not hold it (any more). */
  predicate Gone(s: State, sub: nat) {
    sub < s.callers.nextSub && sub !in WaitingSubs(s) && !Subs.HasId(s.subs.table, sub)
  }

  /** What a step does to the subscription tables. */
  datatype Effect =
    | Keep | Issue | Clear
    | Reject(answer: Frame) | Join(ri: Ri, answer: Frame) | AddNew(ri: Ri, request: int)
    | Remove(sub: nat)
    | Confirm(request: int, answer: Frame)
    | Notify(version: ApiVersion, ri: Ri, frame: Frame)
  {
    /** It handles the first waiting Subscribe command. */
    predicate Takes() { Reject? || Join? || AddNew? }
  }

  function SubscribeEffect(lib: Library, s: State, ri: Ri): Effect {
    if s.version.None? then Reject(ErrorFrame(s.nextId, InternalError))
    else
      var accepted := Subs.AcceptedRi(lib, s.version.value, ri);
      if accepted.None? then Reject(ErrorFrame(s.nextId, InvalidParam))
      else if Subs.HasRi(s.subs.table, accepted.value) then Join(accepted.value, OkFrame(s.nextId))
      else AddNew(accepted.value, s.nextId)
  }

  function CommandEffect(lib: Library, s: State): Effect
    requires s.cmds != []
  {
    match s.cmds[0]
    case Subscribe(ri, _) => SubscribeEffect(lib, s, ri)
    case Unsubscribe(sub) => if s.version.Some? then Remove(sub) else Keep
    case _ => Keep
  }

  function EventEffect(lib: Library, s: State, event: ConnEvent): Effect {
    match event
    case Disconnected => Clear
    case RpcFrameReceived(ResponseFrame(Some(id), Some(body))) =>
      if id !in s.calls.pending && id in s.subs.requests then Confirm(id, event.frame) else Keep
    case RpcFrameReceived(SignalFrame(_, _, _, _)) =>
      var ri := NotificationRi(lib, event.frame);
      if ri.Some? && s.version.Some? then Notify(s.version.value, ri.value, event.frame) else Keep
    case _ => Keep
  }

  function EffectOf(lib: Library, s: State, a: Action): Effect {
    if !Enabled(s, a) then Keep
    else match a
      case NextCommand => CommandEffect(lib, s)
      case NextEvent(event) => EventEffect(lib, s, event)
      case DoSubscribe(_) => Issue
      case _ => Keep
  }

  /** The subscription side of a state: tables, waiting subscriptions, next id. */
  datatype View = View(subs: Subs.Subs, waiting: seq<nat>, next: nat)

  function ViewOf(s: State): View { View(s.subs, WaitingSubs(s), s.callers.nextSub) }

  ghost predicate Possible(v: View, e: Effect) {
    && (e.Takes() ==> v.waiting != [])
    && (e.Join? ==> Subs.HasRi(v.subs.table, e.ri))
    && (e.AddNew? ==> !Subs.HasRi(v.subs.table, e.ri) && e.request !in v.subs.requests)
    && (e.Confirm? ==> e.request in v.subs.requests)
    && (e.Reject? || e.Join? || e.Confirm? ==> e.answer.ResponseFrame?)
    && (e.Notify? ==> e.frame.SignalFrame?)
    && (e.Reject? ==> !Succeeds(e.answer)) && (e.Join? ==> Succeeds(e.answer))
  }

  predicate Succeeds(frame: Frame) { frame.ResponseFrame? && frame.body.Some? && frame.body.value.Success? }

  function Affect(lib: Library, v: View, e: Effect): View
    requires Possible(v, e)
  {
    match e
    case Keep => v
    case Issue => View(v.subs, v.waiting + [v.next], v.next + 1)
    case Clear => v.(subs := Subs.Clear(v.subs))
    case Reject(answer) => v.(subs := Subs.Reject(v.subs, v.waiting[0], answer), waiting := v.waiting[1..])
    case Join(ri, answer) => v.(subs := Subs.Join(v.subs, ri, v.waiting[0], answer), waiting := v.waiting[1..])
    case AddNew(ri, request) => v.(subs := Subs.AddNew(v.subs, ri, v.waiting[0], request), waiting := v.waiting[1..])
    case Remove(sub) => v.(subs := Subs.Remove(v.subs, sub))
    case Confirm(request, answer) => v.(subs := Subs.Confirm(v.subs, request, answer))
    case Notify(version, ri, frame) =>
      v.(subs := v.subs.(logs := Subs.FanOut(lib, version, ri, frame, v.subs.table, v.subs.logs, |v.subs.table|)))
  }

  lemma WaitingAfterAppend(s: State, c: Command)
    requires !c.Subscribe?
    ensures Collect(s.cmds + [c], SubscriptionOf) == WaitingSubs(s)
  {
    AppendKeepsWaiting(s, c);
    assert WaitingSubs(s) + [] == WaitingSubs(s);
  }

  lemma SubscribePossible(lib: Library, s: State, ri: Ri)
    requires Inv(s) && WaitingSubs(s) != []
    ensures Possible(ViewOf(s), SubscribeEffect(lib, s, ri))
  {
  }

  lemma SubscribeWaiting(lib: Library, s: State, ri: Ri, sub: nat)
    ensures WaitingSubs(HandleSubscribe(lib, s, ri, sub)) == WaitingSubs(s)
  {
    var cmds := HandleSubscribe(lib, s, ri, sub).cmds;
    if cmds != s.cmds {
      WaitingAfterAppend(s, cmds[|s.cmds|]);
    }
  }

  lemma SubscribeCommandEffect(lib: Library, s: State)
    requires Inv(s) && s.cmds != [] && s.cmds[0].Subscribe?
    ensures Possible(ViewOf(s), CommandEffect(lib, s))
    ensures ViewOf(HandleCommand(lib, s)) == Affect(lib, ViewOf(s), CommandEffect(lib, s))
  {
    PopWaiting(s);
    assert WaitingSubs(s)[0] == s.cmds[0].sub && WaitingSubs(s)[1..] == WaitingSubs(Pop(s));
    SubscribePossible(lib, s, s.cmds[0].ri);
    SubscribeWaiting(lib, Pop(s), s.cmds[0].ri, s.cmds[0].sub);
  }

  lemma UnsubscribeCommandEffect(lib: Library, s: State)
    requires s.cmds != [] && s.cmds[0].Unsubscribe?
    ensures ViewOf(HandleCommand(lib, s)) == Affect(lib, ViewOf(s), CommandEffect(lib, s))
  {
    PopWaiting(s);
    var popped := Pop(s);
    assert [] + WaitingSubs(popped) == WaitingSubs(popped);
    var cmds := HandleCommand(lib, s).cmds;
    if cmds != popped.cmds {
      WaitingAfterAppend(popped, cmds[|popped.cmds|]);
    }
  }

  lemma OtherCommandEffect(lib: Library, s: State)
    requires s.cmds != [] && !s.cmds[0].Unsubscribe? && !s.cmds[0].Subscribe?
    ensures ViewOf(HandleCommand(lib, s)) == ViewOf(s)
  {
    PopWaiting(s);
    var popped := Pop(s);
    assert [] + WaitingSubs(popped) == WaitingSubs(popped);
    var cmds := HandleCommand(lib, s).cmds;
    if cmds != popped.cmds {
      WaitingAfterAppend(popped, cmds[|popped.cmds|]);
    }
  }

  lemma EventHasEffect(lib: Library, s: State, event: ConnEvent)
    ensures Possible(ViewOf(s), EventEffect(lib, s, event))
    ensures ViewOf(HandleEvent(lib, s, event)) == Affect(lib, ViewOf(s), EventEffect(lib, s, event))
  {
    var cmds := HandleEvent(lib, s, event).cmds;
    if cmds != s.cmds {
      WaitingAfterAppend(s, cmds[|s.cmds|]);
    }
  }

  lemma CallerHasEffect(lib: Library, s: State, a: Action)
    requires Enabled(s, a) && a.CallersOwn()
    ensures ViewOf(Next(lib, s, a)) == Affect(lib, ViewOf(s), if a.DoSubscribe? then Issue else Keep)
  {
    match a
    case DoSubscribe(ri) => AppendKeepsWaiting(s, Subscribe(ri, s.callers.nextSub));
    case DoRpcCall(path, rpcMethod, param) =>
      WaitingAfterAppend(s, RpcCall(Request(Some(s.nextId), path, rpcMethod, param), |s.callers.issued|));
    case RawRpcCall(request) => WaitingAfterAppend(s, RpcCall(request, |s.callers.issued|));
    case DoSendMessage(message) => WaitingAfterAppend(s, SendMessage(message, Application));
    case DropSubscriber(sub) => WaitingAfterAppend(s, Unsubscribe(sub));
    case DoTerminate => WaitingAfterAppend(s, TerminateClient);
  }

  lemma CommandHasEffect(lib: Library, s: State)
    requires Inv(s) && s.cmds != []
    ensures Possible(ViewOf(s), CommandEffect(lib, s))
    ensures ViewOf(HandleCommand(lib, s)) == Affect(lib, ViewOf(s), CommandEffect(lib, s))
  {
    if s.cmds[0].Subscribe? {
      SubscribeCommandEffect(lib, s);
    } else if s.cmds[0].Unsubscribe? {
      UnsubscribeCommandEffect(lib, s);
    } else {
      OtherCommandEffect(lib, s);
    }
  }

  lemma StepHasEffect(lib: Library, s: State, a: Action)
    requires Inv(s)
    ensures Possible(ViewOf(s), EffectOf(lib, s, a))
    ensures ViewOf(Step(lib, s, a)) == Affect(lib, ViewOf(s), EffectOf(lib, s, a))
  {
    if Enabled(s, a) {
      if a.NextCommand? {
        CommandHasEffect(lib, s);
      } else if a.NextEvent? {
        EventHasEffect(lib, s, a.event);
      } else if a.CallersOwn() {
        CallerHasEffect(lib, s, a);
      }
    }
  }

  ghost predicate GoodView(v: View) { Subs.Good(v.subs, v.waiting, v.next) }

  predicate ConfirmedView(v: View, sub: nat, ri: Ri) { Subs.Entry(true, sub, ri) in v.subs.table }

  predicate GoneView(v: View, sub: nat) {
    sub < v.next && sub !in v.waiting && !Subs.HasId(v.subs.table, sub)
  }

  predicate Removing(e: Effect, sub: nat) { e.Clear? || e == Remove(sub) }

  lemma EntryAfterRemove(table: seq<Subs.Entry>, id: nat, e: Subs.Entry)
    requires forall i, j :: 0 <= i < j < |table| ==> table[i].id != table[j].id
    ensures
      var pos := Subs.Position(table, id);
      var left := if pos < |table| then Subs.SwapRemove(table, pos) else table;
      e in left <==> e in table && e.id != id
  {
    var pos := Subs.Position(table, id);
    if pos < |table| {
      Subs.SwapRemoveEntries(table, pos, e);
    }
  }

  lemma IdsAfterRemove(table: seq<Subs.Entry>, id: nat, sub: nat)
    requires forall i, j :: 0 <= i < j < |table| ==> table[i].id != table[j].id
    ensures
      var pos := Subs.Position(table, id);
      var left := if pos < |table| then Subs.SwapRemove(table, pos) else table;
      Subs.HasId(left, sub) ==> Subs.HasId(table, sub) && sub != id
  {
    var pos := Subs.Position(table, id);
    var left := if pos < |table| then Subs.SwapRemove(table, pos) else table;
    if Subs.HasId(left, sub) {
      var j :| 0 <= j < |left| && left[j].id == sub;
      EntryAfterRemove(table, id, left[j]);
    }
  }

  lemma EntryAfterConfirm(table: seq<Subs.Entry>, pos: nat, e: Subs.Entry)
    requires pos < |table| && e in table && e.confirmed
    ensures e in Subs.ConfirmAt(table, pos)
  {
    var k :| 0 <= k < |table| && table[k] == e;
    assert Subs.ConfirmAt(table, pos)[k] == e;
  }

  lemma ConfirmedUnderEffect(lib: Library, v: View, e: Effect, sub: nat, ri: Ri)
    requires GoodView(v) && Possible(v, e) && ConfirmedView(v, sub, ri)
    ensures ConfirmedView(Affect(lib, v, e), sub, ri) <==> !Removing(e, sub)
    ensures Removing(e, sub) ==> GoneView(Affect(lib, v, e), sub)
  {
    var entry := Subs.Entry(true, sub, ri);
    var k :| 0 <= k < |v.subs.table| && v.subs.table[k] == entry;
    assert Subs.HasId(v.subs.table, sub);
    assert sub !in v.waiting;
    match e
    case Remove(id) =>
      EntryAfterRemove(v.subs.table, id, entry);
      IdsAfterRemove(v.subs.table, id, sub);
    case Confirm(request, _) =>
      var pos := Subs.Position(v.subs.table, v.subs.requests[request]);
      if pos < |v.subs.table| {
        EntryAfterConfirm(v.subs.table, pos, entry);
      }
    case _ =>
  }

  lemma GoneUnderEffect(lib: Library, v: View, e: Effect, sub: nat)
    requires GoodView(v) && Possible(v, e) && GoneView(v, sub)
    ensures GoneView(Affect(lib, v, e), sub)
  {
    match e
    case Remove(id) => IdsAfterRemove(v.subs.table, id, sub);
    case _ =>
  }

  /** A confirmed subscription stays so, with its RI, until its Unsubscribe is handled or the connection is lost. */
  lemma ConfirmedStays(lib: Library, s: State, a: Action, sub: nat, ri: Ri)
    requires Inv(s) && ConfirmedIn(s, sub, ri)
    ensures ConfirmedIn(Step(lib, s, a), sub, ri) <==> !Removing(EffectOf(lib, s, a), sub)
    ensures Removing(EffectOf(lib, s, a), sub) ==> Gone(Step(lib, s, a), sub)
  {
    StepHasEffect(lib, s, a);
    ConfirmedUnderEffect(lib, ViewOf(s), EffectOf(lib, s, a), sub, ri);
    assert ViewOf(Step(lib, s, a)).subs.table == Step(lib, s, a).subs.table;
  }

  /** Once gone, a subscription never comes back: ids are not used again. */
  lemma GoneStays(lib: Library, s: State, a: Action, sub: nat)
    requires Inv(s) && Gone(s, sub)
    ensures Gone(Step(lib, s, a), sub)
  {
    StepHasEffect(lib, s, a);
    GoneUnderEffect(lib, ViewOf(s), EffectOf(lib, s, a), sub);
    assert ViewOf(Step(lib, s, a)).subs.table == Step(lib, s, a).subs.table;
  }

  /** The table holds the subscription, and its request is unanswered. */
  predicate Unconfirmed(table: seq<Subs.Entry>, sub: nat) {
    exists k :: 0 <= k < |table| && table[k].id == sub && !table[k].confirmed
  }

  /** Nobody holds a sender of the subscription's channel any more, and nothing was ever sent into it. */
  predicate SilentView(v: View, sub: nat) {
    GoneView(v, sub) && Log(v.subs.logs, sub) == []
  }

  lemma SilentAfterRemove(lib: Library, v: View, id: nat, sub: nat)
    requires GoodView(v)
    ensures SilentView(Affect(lib, v, Remove(id)), sub)
       <==> SilentView(v, sub) || (id == sub && Unconfirmed(v.subs.table, sub))
  {
    var table, left := v.subs.table, Subs.Remove(v.subs, id).table;
    IdsAfterRemove(table, id, sub);
    if k :| 0 <= k < |table| && table[k].id == sub {
      assert id != sub ==> table[k] in left by { EntryAfterRemove(table, id, table[k]); }
      assert sub !in v.waiting && sub < v.next;
    }
  }

  lemma SilentAfterTaken(lib: Library, v: View, e: Effect, sub: nat)
    requires GoodView(v) && Possible(v, e) && e.Takes()
    ensures SilentView(Affect(lib, v, e), sub) <==> SilentView(v, sub)
  {
    var table, table' := v.subs.table, Affect(lib, v, e).subs.table;
    assert forall k :: 0 <= k < |table| ==> table'[k] == table[k];
    assert !e.Reject? ==> table'[|table|].id == v.waiting[0];
    assert v.waiting == [v.waiting[0]] + v.waiting[1..];
  }

  lemma SilentAfterConfirm(lib: Library, v: View, e: Effect, sub: nat)
    requires GoodView(v) && Possible(v, e) && e.Confirm?
    ensures SilentView(Affect(lib, v, e), sub) <==> SilentView(v, sub)
  {
    var table, table' := v.subs.table, Affect(lib, v, e).subs.table;
    assert |table'| == |table| && forall k :: 0 <= k < |table| ==> table'[k].id == table[k].id;
  }

  lemma SilentAfterOther(lib: Library, v: View, e: Effect, sub: nat)
    requires GoodView(v) && Possible(v, e) && !e.Takes() && !e.Confirm? && !e.Remove?
    ensures SilentView(Affect(lib, v, e), sub) <==> SilentView(v, sub) || (e.Clear? && Unconfirmed(v.subs.table, sub))
  {
    if e.Notify? {
      Subs.FanOutLog(lib, e.version, e.ri, e.frame, v.subs.table, v.subs.logs, |v.subs.table|, sub);
    }
  }

  lemma SilentUnderEffect(lib: Library, v: View, e: Effect, sub: nat)
    requires GoodView(v) && Possible(v, e)
    ensures SilentView(Affect(lib, v, e), sub)
       <==> SilentView(v, sub) || (Removing(e, sub) && Unconfirmed(v.subs.table, sub))
  {
    if e.Remove? {
      SilentAfterRemove(lib, v, e.sub, sub);
    } else if e.Takes() {
      SilentAfterTaken(lib, v, e, sub);
    } else if e.Confirm? {
      SilentAfterConfirm(lib, v, e, sub);
    } else {
      SilentAfterOther(lib, v, e, sub);
    }
  }

  // ------------------------------------------------- what a subscriber is sent

  /** Does a signal concern a subscription to `ri`? Under SHV 2 by signal name and by the components of the paths. */
  predicate Concerns(lib: Library, version: ApiVersion, ri: Ri, path: string, source: string, name: Option<string>) {
    match version
    case V2 => (ri.signal == Some("*") || ri.signal == name) && Paths.Split(ri.path) <= Paths.Split(path)
    case V3 => lib.globMatch(ri, Ri(path, source, name))
  }

  function SourceOf(frame: Frame): string
    requires frame.SignalFrame?
  {
    if frame.source.Some? then frame.source.value else ""
  }

  /** A signal the client can make sense of: it has a path, it is well formed, and the API version is known. */
  predicate Understood(lib: Library, s: State, frame: Frame) {
    && frame.SignalFrame? && frame.shvPath.Some? && s.version.Some?
    && lib.validRi(frame.shvPath.value, SourceOf(frame), frame.name)
  }

  /** The step brings in a signal that concerns a subscription to `ri`. */
  predicate SignalMatches(lib: Library, s: State, a: Action, ri: Ri) {
    && Enabled(s, a) && a.NextEvent? && a.event.RpcFrameReceived? && Understood(lib, s, a.event.frame)
    && Concerns(lib, s.version.value, ri, a.event.frame.shvPath.value, SourceOf(a.event.frame), a.event.frame.name)
  }

  lemma SignalMatchesAsEffect(lib: Library, s: State, a: Action, ri: Ri)
    ensures
      var e := EffectOf(lib, s, a);
      SignalMatches(lib, s, a, ri) <==> e.Notify? && Subs.Matches(lib, ri, e.ri, e.version)
  {
    if a.NextEvent? && a.event.RpcFrameReceived? && a.event.frame.SignalFrame? && a.event.frame.shvPath.Some? {
      Paths.MatchIsComponentPrefix(ri.path, a.event.frame.shvPath.value);
    }
  }

  /** The notifications among actions `from`..`upto` of the run that `ri` covers, in order of arrival. */
  function MatchingSignals(lib: Library, run: seq<Action>, from: nat, upto: nat, ri: Ri): seq<Frame>
    requires upto <= |run|
  {
    if upto <= from then []
    else
      MatchingSignals(lib, run, from, upto - 1, ri)
      + (if SignalMatches(lib, After(lib, run[..upto - 1]), run[upto - 1], ri) then [run[upto - 1].event.frame] else [])
  }

  lemma ConfirmedLogUnderEffect(lib: Library, v: View, e: Effect, sub: nat, ri: Ri)
    requires GoodView(v) && Possible(v, e) && ConfirmedView(v, sub, ri)
    ensures
      var log, log' := Log(v.subs.logs, sub), Log(Affect(lib, v, e).subs.logs, sub);
      log != [] && log' == if e.Notify? && Subs.Matches(lib, ri, e.ri, e.version) then log + [e.frame] else log
  {
    var table := v.subs.table;
    var k :| 0 <= k < |table| && table[k] == Subs.Entry(true, sub, ri);
    if e.Notify? {
      Subs.FanOutLog(lib, e.version, e.ri, e.frame, table, v.subs.logs, |table|, sub);
    }
  }

  lemma OtherLogUnderEffect(lib: Library, v: View, e: Effect, sub: nat)
    requires GoodView(v) && Possible(v, e) && forall ri :: !ConfirmedView(v, sub, ri)
    ensures
      var log, log' := Log(v.subs.logs, sub), Log(Affect(lib, v, e).subs.logs, sub);
      log' == log || (log == [] && |log'| == 1 && log'[0].ResponseFrame?)
  {
    if e.Notify? {
      var table := v.subs.table;
      Subs.FanOutLog(lib, e.version, e.ri, e.frame, table, v.subs.logs, |table|, sub);
      if k :| 0 <= k < |table| && table[k].id == sub && table[k].confirmed {
        assert table[k] == Subs.Entry(true, sub, table[k].ri);
        assert ConfirmedView(v, sub, table[k].ri);
      }
    }
  }

  lemma LogUnderEffect(lib: Library, v: View, e: Effect, sub: nat)
    requires GoodView(v) && Possible(v, e)
    ensures
      var log, log' := Log(v.subs.logs, sub), Log(Affect(lib, v, e).subs.logs, sub);
      && (forall ri :: ConfirmedView(v, sub, ri) ==>
            log != [] && log' == if e.Notify? && Subs.Matches(lib, ri, e.ri, e.version) then log + [e.frame] else log)
      && ((forall ri :: !ConfirmedView(v, sub, ri)) ==>
            log' == log || (log == [] && |log'| == 1 && log'[0].ResponseFrame?))
  {
    forall ri | ConfirmedView(v, sub, ri)
      ensures
        var log, log' := Log(v.subs.logs, sub), Log(Affect(lib, v, e).subs.logs, sub);
        log != [] && log' == if e.Notify? && Subs.Matches(lib, ri, e.ri, e.version) then log + [e.frame] else log
    {
      ConfirmedLogUnderEffect(lib, v, e, sub, ri);
    }
    if forall ri :: !ConfirmedView(v, sub, ri) {
      OtherLogUnderEffect(lib, v, e, sub);
    }
  }

  lemma LogStep(lib: Library, s: State, a: Action, sub: nat)
    requires Inv(s)
    ensures
      var log, log' := Log(s.subs.logs, sub), Log(Step(lib, s, a).subs.logs, sub);
      && (forall ri :: ConfirmedIn(s, sub, ri) ==>
            log != [] && log' == if SignalMatches(lib, s, a, ri) then log + [a.event.frame] else log)
      && ((forall ri :: !ConfirmedIn(s, sub, ri)) ==>
            log' == log || (log == [] && |log'| == 1 && log'[0].ResponseFrame?))
  {
    StepHasEffect(lib, s, a);
    var v, e := ViewOf(s), EffectOf(lib, s, a);
    LogUnderEffect(lib, v, e, sub);
    assert ViewOf(Step(lib, s, a)).subs.logs == Step(lib, s, a).subs.logs;
    forall ri ensures ConfirmedIn(s, sub, ri) == ConfirmedView(v, sub, ri) {}
    forall ri ensures SignalMatches(lib, s, a, ri) <==> e.Notify? && Subs.Matches(lib, ri, e.ri, e.version) {
      SignalMatchesAsEffect(lib, s, a, ri);
    }
  }

  lemma SignalTouchesLogsOnly(lib: Library, s: State, frame: Frame)
    requires s.status.Running? && frame.SignalFrame?
    ensures
      var s' := Step(lib, s, NextEvent(RpcFrameReceived(frame)));
      && s' == s.(subs := s.subs.(logs := s'.subs.logs))
      && (!Understood(lib, s, frame) ==> s' == s)
  {
  }

  /**
   * In any reachable running state a signal is delivered to a confirmed subscription exactly if it concerns its RI,
   * and then as one more frame at the end. One that is not understood changes nothing, and no signal changes
   * anything but the channels of confirmed subscriptions.
   */
  lemma SignalIsDelivered(lib: Library, run: seq<Action>, frame: Frame, sub: nat)
    requires After(lib, run).status.Running? && frame.SignalFrame?
    ensures
      var s, s' := After(lib, run), Step(lib, After(lib, run), NextEvent(RpcFrameReceived(frame)));
      var log, log' := Log(s.subs.logs, sub), Log(s'.subs.logs, sub);
      && s' == s.(subs := s.subs.(logs := s'.subs.logs))
      && (!Understood(lib, s, frame) ==> s' == s)
      && (forall ri :: ConfirmedIn(s, sub, ri) && Understood(lib, s, frame) ==>
            log' == log + if Concerns(lib, s.version.value, ri, frame.shvPath.value, SourceOf(frame), frame.name)
                          then [frame] else [])
      && (!HoldsConfirmed(s.subs.table, sub) ==> log' == log)
  {
    var s, a := After(lib, run), NextEvent(RpcFrameReceived(frame));
    InvAlways(lib, run);
    SignalTouchesLogsOnly(lib, s, frame);
    LogStep(lib, s, a, sub);
    if Understood(lib, s, frame) && !HoldsConfirmed(s.subs.table, sub) {
      UnconfirmedGetNoSignal(lib, s, frame, sub);
    }
  }

  lemma UnconfirmedGetNoSignal(lib: Library, s: State, frame: Frame, sub: nat)
    requires Inv(s) && s.status.Running? && frame.SignalFrame? && !HoldsConfirmed(s.subs.table, sub)
    ensures Log(Step(lib, s, NextEvent(RpcFrameReceived(frame))).subs.logs, sub) == Log(s.subs.logs, sub)
  {
    var ri := NotificationRi(lib, frame);
    if ri.Some? && s.version.Some? {
      Subs.FanOutLog(lib, s.version.value, ri.value, frame, s.subs.table, s.subs.logs, |s.subs.table|, sub);
    }
  }

  predicate HoldsConfirmed(table: seq<Subs.Entry>, sub: nat) {
    exists k :: 0 <= k < |table| && table[k].id == sub && table[k].confirmed
  }

  /** The effect tells subscription `sub` that it succeeded: it joins an RI already held, or its request did. */
  predicate GrantedBy(v: View, e: Effect, sub: nat) {
    || (e.Join? && v.waiting != [] && v.waiting[0] == sub)
    || (e.Confirm? && e.request in v.subs.requests && v.subs.requests[e.request] == sub
        && Subs.HasId(v.subs.table, sub) && Succeeds(e.answer))
  }

  lemma GrantUnderEffect(lib: Library, v: View, e: Effect, sub: nat)
    requires GoodView(v) && Possible(v, e) && GrantedBy(v, e, sub)
    ensures Log(v.subs.logs, sub) == [] && HoldsConfirmed(Affect(lib, v, e).subs.table, sub)
    ensures Log(Affect(lib, v, e).subs.logs, sub) == [e.answer] && Succeeds(e.answer)
  {
    var table, table' := v.subs.table, Affect(lib, v, e).subs.table;
    if e.Join? {
      assert table'[|table|] == Subs.Entry(true, sub, e.ri);
    } else {
      var k :| 0 <= k < |table| && table[k].id == sub;
      assert Subs.Position(table, sub) == k && Subs.Outstanding(v.subs, sub);
      assert table'[k].confirmed;
    }
  }

  lemma FirstFrameUnderEffect(lib: Library, v: View, e: Effect, sub: nat)
    requires GoodView(v) && Possible(v, e) && !GrantedBy(v, e, sub) && Log(v.subs.logs, sub) == []
    ensures var log' := Log(Affect(lib, v, e).subs.logs, sub); log' != [] ==> !Succeeds(log'[0])
  {
    if e.Notify? {
      Subs.FanOutLog(lib, e.version, e.ri, e.frame, v.subs.table, v.subs.logs, |v.subs.table|, sub);
    }
  }

  /**
   * The step tells the subscription that it succeeded: its Subscribe is handled while another subscription
   * holds the RI, or the answer to its own request is a success.
   */
  predicate Grants(lib: Library, s: State, a: Action, sub: nat) {
    Enabled(s, a) &&
    match a
    case NextCommand =>
      && s.cmds[0].Subscribe? && s.cmds[0].sub == sub && s.version.Some?
      && var accepted := Subs.AcceptedRi(lib, s.version.value, s.cmds[0].ri);
         accepted.Some? && Subs.HasRi(s.subs.table, accepted.value)
    case NextEvent(RpcFrameReceived(ResponseFrame(Some(id), Some(body)))) =>
      && id !in s.calls.pending && id in s.subs.requests && s.subs.requests[id] == sub
      && Subs.HasId(s.subs.table, sub) && body.Success?
    case _ => false
  }

  lemma GrantsIsEffect(lib: Library, s: State, a: Action, sub: nat)
    requires Inv(s)
    ensures Grants(lib, s, a, sub) <==> GrantedBy(ViewOf(s), EffectOf(lib, s, a), sub)
  {
    if Enabled(s, a) && a.NextCommand? {
      PopWaiting(s);
      assert s.cmds[0].Subscribe? ==> WaitingSubs(s)[0] == s.cmds[0].sub;
    }
  }

  lemma FirstFrameStep(lib: Library, s: State, a: Action, sub: nat)
    requires Inv(s)
    ensures
      var log, log' := Log(s.subs.logs, sub), Log(Step(lib, s, a).subs.logs, sub);
      && (Grants(lib, s, a, sub) ==>
            log == [] && |log'| == 1 && Succeeds(log'[0]) && HoldsConfirmed(Step(lib, s, a).subs.table, sub))
      && (log == [] && !Grants(lib, s, a, sub) ==> log' == [] || !Succeeds(log'[0]))
      && (log != [] ==> log <= log')
  {
    StepHasEffect(lib, s, a);
    GrantsIsEffect(lib, s, a, sub);
    LogStep(lib, s, a, sub);
    var v, e := ViewOf(s), EffectOf(lib, s, a);
    if ri :| ConfirmedIn(s, sub, ri) {
    }
    if Grants(lib, s, a, sub) {
      GrantUnderEffect(lib, v, e, sub);
    } else if Log(s.subs.logs, sub) == [] {
      FirstFrameUnderEffect(lib, v, e, sub);
    }
    assert ViewOf(Step(lib, s, a)).subs == Step(lib, s, a).subs;
  }

  predicate Succeeded(s: State, sub: nat) {
    Log(s.subs.logs, sub) != [] && Succeeds(Log(s.subs.logs, sub)[0])
  }

  lemma SucceededStep(lib: Library, s: State, a: Action, sub: nat)
    requires Inv(s)
    ensures Succeeded(Step(lib, s, a), sub) <==> Succeeded(s, sub) || Grants(lib, s, a, sub)
  {
    FirstFrameStep(lib, s, a, sub);
  }

  lemma SucceededAtPrefix(lib: Library, run: seq<Action>, sub: nat, i: nat)
    requires i < |run|
    ensures Succeeded(After(lib, run[..i + 1]), sub)
       <==> Succeeded(After(lib, run[..i]), sub) || Grants(lib, After(lib, run[..i]), run[i], sub)
  {
    PrefixStep(lib, run, i);
    InvAlways(lib, run[..i]);
    SucceededStep(lib, After(lib, run[..i]), run[i], sub);
  }

  lemma {:induction false} GrantLasts(lib: Library, run: seq<Action>, sub: nat, i: nat, j: nat)
    requires i < j <= |run| && Grants(lib, After(lib, run[..i]), run[i], sub)
    ensures Succeeded(After(lib, run[..j]), sub)
    decreases j
  {
    SucceededAtPrefix(lib, run, sub, j - 1);
    if i < j - 1 {
      GrantLasts(lib, run, sub, i, j - 1);
    }
  }

  lemma {:induction false} SuccessIsGranted(lib: Library, run: seq<Action>, sub: nat, j: nat) returns (i: nat)
    requires j <= |run| && Succeeded(After(lib, run[..j]), sub)
    ensures i < j && Grants(lib, After(lib, run[..i]), run[i], sub)
    decreases j
  {
    assert j > 0 by {
      assert run[..0] == [];
    }
    SucceededAtPrefix(lib, run, sub, j - 1);
    if Succeeded(After(lib, run[..j - 1]), sub) {
      i := SuccessIsGranted(lib, run, sub, j - 1);
    } else {
      i := j - 1;
    }
  }

  /** On every run the first frame a subscriber gets is a success exactly when some step granted its subscription. */
  lemma FirstFrameSucceedsExactly(lib: Library, run: seq<Action>, sub: nat)
    ensures Succeeded(After(lib, run), sub)
       <==> exists i :: 0 <= i < |run| && Grants(lib, After(lib, run[..i]), run[i], sub)
  {
    assert run[..|run|] == run;
    if Succeeded(After(lib, run), sub) {
      var i := SuccessIsGranted(lib, run, sub, |run|);
    }
    if i :| 0 <= i < |run| && Grants(lib, After(lib, run[..i]), run[i], sub) {
      GrantLasts(lib, run, sub, i, |run|);
    }
  }

  /** Subscription 0 was refused by the broker and is in the table all the same; 1 is next. */
  predicate RefusedFirst(s: State, ri: Ri, refusal: Frame) {
    && s.status.Running? && s.version == Some(V3) && |s.cmds| == 1 && s.cmds[0].SendMessage?
    && s.subs.table == [Subs.Entry(true, 0, ri)] && s.callers.nextSub == 1
    && Log(s.subs.logs, 0) == [refusal] && Log(s.subs.logs, 1) == []
  }

  /** Subscription 0 waits for the answer to request 1. */
  predicate AskedFirst(s: State, ri: Ri) {
    && s.status.Running? && s.version == Some(V3) && |s.cmds| == 1 && s.cmds[0].SendMessage?
    && s.subs.table == [Subs.Entry(false, 0, ri)] && s.subs.requests == map[1 := 0] && s.subs.logs == map[]
    && s.callers.nextSub == 1 && s.calls == Calls.NO_CALLS
  }

  lemma StartSubscribing(lib: Library) returns (run: seq<Action>)
    ensures After(lib, run) == HandleVersion(HandleEvent(lib, INIT, Connected(0)), Some(V3))
  {
    var run0 := [NextEvent(Connected(0))];
    OneMoreAction(lib, [], NextEvent(Connected(0)));
    assert [] + [NextEvent(Connected(0))] == run0;
    OneMoreAction(lib, run0, VersionResult(Some(V3)));
    run := run0 + [VersionResult(Some(V3))];
  }

  lemma AskFirst(lib: Library, ri: Ri)
    requires Subs.AcceptedRi(lib, V3, ri) == Some(ri)
    ensures exists run :: AskedFirst(After(lib, run), ri)
  {
    var run := StartSubscribing(lib);
    OneMoreAction(lib, run, DoSubscribe(ri));
    OneMoreAction(lib, run + [DoSubscribe(ri)], NextCommand);
    assert After(lib, run + [DoSubscribe(ri)]).cmds == [Subscribe(ri, 0)];
    assert AskedFirst(After(lib, run + [DoSubscribe(ri)] + [NextCommand]), ri);
  }

  lemma RefuseFirst(lib: Library, ri: Ri, refusal: Frame)
    requires Subs.AcceptedRi(lib, V3, ri) == Some(ri) && refusal == ErrorFrame(1, PermissionDenied)
    ensures exists run :: RefusedFirst(After(lib, run), ri, refusal)
  {
    AskFirst(lib, ri);
    var run :| AskedFirst(After(lib, run), ri);
    OneMoreAction(lib, run, NextEvent(RpcFrameReceived(refusal)));
    assert RefusedFirst(After(lib, run + [NextEvent(RpcFrameReceived(refusal))]), ri, refusal);
  }

  /** The next Subscribe joins the refused one. */
  predicate JoinsRefused(lib: Library, s: State, ri: Ri, refusal: Frame) {
    var s' := Step(lib, s, NextCommand);
    && s.subs.table == [Subs.Entry(true, 0, ri)] && Log(s.subs.logs, 0) == [refusal]
    && s.cmds == [Subscribe(ri, 1)] && Grants(lib, s, NextCommand, 1)
    && s'.subs.table == [Subs.Entry(true, 0, ri)] + [Subs.Entry(true, 1, ri)] && Log(s'.subs.logs, 0) == [refusal]
    && |Log(s'.subs.logs, 1)| == 1 && Succeeds(Log(s'.subs.logs, 1)[0])
  }

  lemma AskAgain(lib: Library, s: State, ri: Ri, refusal: Frame)
    requires RefusedFirst(s, ri, refusal) && Subs.AcceptedRi(lib, V3, ri) == Some(ri)
    ensures JoinsRefused(lib, Step(lib, Step(lib, s, DoSubscribe(ri)), NextCommand), ri, refusal)
  {
    var s1 := Step(lib, s, DoSubscribe(ri));
    assert s1.cmds == [s.cmds[0]] + [Subscribe(ri, 1)];
    var s2 := Step(lib, s1, NextCommand);
    assert s2.cmds == [Subscribe(ri, 1)] && s2.subs == s.subs && s2.version == Some(V3);
    assert s2.subs.table[0].ri == ri && Subs.HasRi(s2.subs.table, ri) && !Subs.HasId(s2.subs.table, 1);
  }

  /**
   * A subscription the broker refused keeps its RI in the table: there is a run after which the only entry is one
   * whose channel holds the refusal, and the next Subscribe, to the same RI, joins it and succeeds at once.
   */
  lemma JoiningARefusedSubscription(lib: Library, ri: Ri)
    requires Subs.AcceptedRi(lib, V3, ri) == Some(ri)
    ensures exists run :: JoinsRefused(lib, After(lib, run), ri, ErrorFrame(1, PermissionDenied))
  {
    var refusal := ErrorFrame(1, PermissionDenied);
    RefuseFirst(lib, ri, refusal);
    var run :| RefusedFirst(After(lib, run), ri, refusal);
    AskAgain(lib, After(lib, run), ri, refusal);
    OneMoreAction(lib, run, DoSubscribe(ri));
    OneMoreAction(lib, run + [DoSubscribe(ri)], NextCommand);
    assert JoinsRefused(lib, After(lib, run + [DoSubscribe(ri)] + [NextCommand]), ri, refusal);
  }

  lemma {:induction false} GoneForever(lib: Library, run: seq<Action>, i: nat, j: nat, sub: nat)
    requires i <= j <= |run| && Gone(After(lib, run[..i]), sub)
    ensures Gone(After(lib, run[..j]), sub)
    decreases j - i
  {
    if i < j {
      assert run[..i + 1][..i] == run[..i];
      InvAlways(lib, run[..i]);
      GoneStays(lib, After(lib, run[..i]), run[i], sub);
      GoneForever(lib, run, i + 1, j, sub);
    }
  }

  lemma AtMostOneRi(s: State, sub: nat, ri: Ri, ri': Ri)
    requires Inv(s) && ConfirmedIn(s, sub, ri) && ConfirmedIn(s, sub, ri')
    ensures ri == ri'
  {
    var k :| 0 <= k < |s.subs.table| && s.subs.table[k] == Subs.Entry(true, sub, ri);
    var k' :| 0 <= k' < |s.subs.table| && s.subs.table[k'] == Subs.Entry(true, sub, ri');
  }

  lemma NotGone(s: State, sub: nat, ri: Ri)
    requires ConfirmedIn(s, sub, ri)
    ensures !Gone(s, sub)
  {
    var k :| 0 <= k < |s.subs.table| && s.subs.table[k] == Subs.Entry(true, sub, ri);
  }

  /** `sub` is confirmed exactly in the states before actions `from`..`upto`, always with the same RI. */
  ghost predicate ConfirmedPeriod(lib: Library, run: seq<Action>, sub: nat, ri: Ri, from: nat, upto: nat) {
    && from <= upto <= |run|
    && forall i, r :: 0 <= i < |run| ==> (ConfirmedIn(After(lib, run[..i]), sub, r) <==> from <= i < upto && r == ri)
  }

  /** The confirmed states after a step from a confirmed one: still that RI, or gone for good. */
  lemma NextConfirmed(lib: Library, run: seq<Action>, n: nat, sub: nat, ri: Ri, r: Ri)
    requires 0 < n <= |run|
    requires ConfirmedIn(After(lib, run[..n - 1]), sub, ri) && ConfirmedIn(After(lib, run[..n]), sub, r)
    ensures r == ri
  {
    var s := After(lib, run[..n - 1]);
    InvAlways(lib, run[..n - 1]);
    InvAlways(lib, run[..n]);
    assert run[..n][..n - 1] == run[..n - 1];
    ConfirmedStays(lib, s, run[n - 1], sub, ri);
    NotGone(After(lib, run[..n]), sub, r);
    AtMostOneRi(After(lib, run[..n]), sub, ri, r);
  }

  lemma LeftForGood(lib: Library, run: seq<Action>, i: nat, j: nat, sub: nat, ri: Ri, r: Ri)
    requires i < j <= |run| && ConfirmedIn(After(lib, run[..i]), sub, ri) && ConfirmedIn(After(lib, run[..j]), sub, r)
    ensures ConfirmedIn(After(lib, run[..i + 1]), sub, ri)
  {
    InvAlways(lib, run[..i]);
    assert run[..i + 1][..i] == run[..i];
    ConfirmedStays(lib, After(lib, run[..i]), run[i], sub, ri);
    if Gone(After(lib, run[..i + 1]), sub) {
      GoneForever(lib, run, i + 1, j, sub);
      NotGone(After(lib, run[..j]), sub, r);
    }
  }

  /** The period is right for the states before the last action. */
  ghost predicate PeriodSoFar(lib: Library, run: seq<Action>, sub: nat, ri: Ri, from: nat, upto: nat) {
    && from <= upto < |run|
    && forall i, r :: 0 <= i < |run| - 1 ==>
         (ConfirmedIn(After(lib, run[..i]), sub, r) <==> from <= i < upto && r == ri)
  }

  lemma OnlyRiAt(lib: Library, run: seq<Action>, n: nat, sub: nat, r: Ri)
    requires n <= |run| && ConfirmedIn(After(lib, run[..n]), sub, r)
    ensures forall r' :: ConfirmedIn(After(lib, run[..n]), sub, r') <==> r' == r
  {
    InvAlways(lib, run[..n]);
    forall r' | ConfirmedIn(After(lib, run[..n]), sub, r') ensures r' == r {
      AtMostOneRi(After(lib, run[..n]), sub, r, r');
    }
  }

  /** If the period is not over before, it lasts up to the last state. */
  lemma PeriodLasts(lib: Library, run: seq<Action>, sub: nat, ri: Ri, from: nat, upto: nat, r: Ri)
    requires PeriodSoFar(lib, run, sub, ri, from, upto) && ConfirmedIn(After(lib, run[..|run| - 1]), sub, r)
    requires from < upto
    ensures upto == |run| - 1 && r == ri
  {
    var n := |run| - 1;
    assert ConfirmedIn(After(lib, run[..upto - 1]), sub, ri);
    LeftForGood(lib, run, upto - 1, n, sub, ri, r);
    assert upto == n;
    NextConfirmed(lib, run, n, sub, ri, r);
  }

  lemma PeriodGoesOn(lib: Library, run: seq<Action>, sub: nat, ri: Ri, from: nat, upto: nat, r: Ri)
    requires PeriodSoFar(lib, run, sub, ri, from, upto) && ConfirmedIn(After(lib, run[..|run| - 1]), sub, r)
    ensures if from < upto then ConfirmedPeriod(lib, run, sub, ri, from, |run|)
            else ConfirmedPeriod(lib, run, sub, r, |run| - 1, |run|)
  {
    OnlyRiAt(lib, run, |run| - 1, sub, r);
    if from < upto {
      PeriodLasts(lib, run, sub, ri, from, upto, r);
    }
  }

  lemma {:induction false} ConfirmedPeriodExists(lib: Library, run: seq<Action>, sub: nat)
    returns (ri: Ri, from: nat, upto: nat)
    ensures ConfirmedPeriod(lib, run, sub, ri, from, upto)
  {
    if run == [] {
      return Ri("", "", None), 0, 0;
    }
    var n := |run| - 1;
    ri, from, upto := ConfirmedPeriodExists(lib, run[..n], sub);
    forall i, r | 0 <= i < n ensures ConfirmedIn(After(lib, run[..i]), sub, r) <==> from <= i < upto && r == ri {
      assert run[..n][..i] == run[..i];
      assert ConfirmedIn(After(lib, run[..n][..i]), sub, r) == ConfirmedIn(After(lib, run[..i]), sub, r);
    }
    assert PeriodSoFar(lib, run, sub, ri, from, upto);
    if r :| ConfirmedIn(After(lib, run[..n]), sub, r) {
      PeriodGoesOn(lib, run, sub, ri, from, upto, r);
      ri, from, upto := if from < upto then ri else r, if from < upto then from else n, n + 1;
    }
  }

  lemma LogAtPrefix(lib: Library, run: seq<Action>, sub: nat, ri: Ri, from: nat, upto: nat, n: nat)
    requires ConfirmedPeriod(lib, run, sub, ri, from, upto) && n < |run|
    ensures
      var log, log' := Log(After(lib, run[..n]).subs.logs, sub), Log(After(lib, run[..n + 1]).subs.logs, sub);
      if from <= n < upto then
        var arrived := if SignalMatches(lib, After(lib, run[..n]), run[n], ri) then [run[n].event.frame] else [];
        log != [] && log' == log + arrived
      else
        log' == log || (log == [] && |log'| == 1 && log'[0].ResponseFrame?)
  {
    PrefixStep(lib, run, n);
    InvAlways(lib, run[..n]);
    LogStep(lib, After(lib, run[..n]), run[n], sub);
    if from <= n < upto {
      assert ConfirmedIn(After(lib, run[..n]), sub, ri);
    } else {
      assert forall r :: !ConfirmedIn(After(lib, run[..n]), sub, r);
    }
  }

  lemma {:induction false} LogInPeriod(lib: Library, run: seq<Action>, sub: nat, ri: Ri, from: nat, upto: nat, n: nat)
    requires ConfirmedPeriod(lib, run, sub, ri, from, upto) && n <= |run|
    ensures
      var log := Log(After(lib, run[..n]).subs.logs, sub);
      && (log != [] ==> log[0].ResponseFrame?)
      && MatchingSignals(lib, run, from, if n < upto then n else upto, ri) == (if log == [] then [] else log[1..])
    decreases n
  {
    if n > 0 {
      LogInPeriod(lib, run, sub, ri, from, upto, n - 1);
      LogAtPrefix(lib, run, sub, ri, from, upto, n - 1);
    } else {
      assert run[..0] == [];
    }
  }

  /**
   * On every run a notification channel is empty, or holds one response and then exactly the notifications
   * that arrived while the subscription was confirmed and that its RI covers, each once, in order of arrival.
   */
  lemma SubscriberSees(lib: Library, run: seq<Action>, sub: nat)
    ensures exists ri, from, upto ::
      && ConfirmedPeriod(lib, run, sub, ri, from, upto)
      && var log := Log(After(lib, run).subs.logs, sub);
         && (log == [] ==> MatchingSignals(lib, run, from, upto, ri) == [])
         && (log != [] ==> log[0].ResponseFrame? && log[1..] == MatchingSignals(lib, run, from, upto, ri))
  {
    var ri, from, upto := ConfirmedPeriodExists(lib, run, sub);
    LogInPeriod(lib, run, sub, ri, from, upto, |run|);
    assert run[..|run|] == run;
    assert ConfirmedPeriod(lib, run, sub, ri, from, upto);
  }

  // ----------------------------------------- from the request to the answer

  /** Request `request` is unanswered and subscription `sub` to `ri` waits for it. */
  predicate Awaiting(v: View, request: int, sub: nat, ri: Ri) {
    request in v.subs.requests && v.subs.requests[request] == sub && Subs.Entry(false, sub, ri) in v.subs.table
  }

  lemma AwaitingUnderEffect(lib: Library, v: View, e: Effect, request: int, sub: nat, ri: Ri)
    requires GoodView(v) && Possible(v, e) && Awaiting(v, request, sub, ri)
    requires !Removing(e, sub) && !(e.Confirm? && e.request == request)
    ensures Awaiting(Affect(lib, v, e), request, sub, ri)
  {
    var entry := Subs.Entry(false, sub, ri);
    var k :| 0 <= k < |v.subs.table| && v.subs.table[k] == entry;
    match e
    case Remove(id) => EntryAfterRemove(v.subs.table, id, entry);
    case Confirm(other, _) =>
      assert v.subs.requests[other] != sub;
      var pos := Subs.Position(v.subs.table, v.subs.requests[other]);
      if pos < |v.subs.table| {
        assert Subs.ConfirmAt(v.subs.table, pos)[k] == entry;
      }
    case _ =>
  }

  /** Neither answered, nor removed, nor cut off, in the course of `more`. */
  ghost predicate StillAwaiting(lib: Library, s: State, more: seq<Action>, request: int, sub: nat) {
    forall i :: 0 <= i < |more| ==>
      var e := EffectOf(lib, AfterFrom(lib, s, more[..i]), more[i]);
      !more[i].RawRpcCall? && !Removing(e, sub) && !(e.Confirm? && e.request == request)
  }

  lemma AwaitingOneStep(lib: Library, s: State, a: Action, request: int, sub: nat, ri: Ri)
    requires Inv(s) && CallTheorems.FreshIds(s) && Awaiting(ViewOf(s), request, sub, ri) && !a.RawRpcCall?
    requires var e := EffectOf(lib, s, a); !Removing(e, sub) && !(e.Confirm? && e.request == request)
    ensures Inv(Step(lib, s, a)) && CallTheorems.FreshIds(Step(lib, s, a))
    ensures Awaiting(ViewOf(Step(lib, s, a)), request, sub, ri)
  {
    InvAfterStep(lib, s, a);
    CallTheorems.FreshAfterStep(lib, s, a);
    StepHasEffect(lib, s, a);
    AwaitingUnderEffect(lib, ViewOf(s), EffectOf(lib, s, a), request, sub, ri);
  }

  lemma {:induction false} StaysAwaiting(lib: Library, s: State, more: seq<Action>, request: int, sub: nat, ri: Ri)
    requires Inv(s) && CallTheorems.FreshIds(s) && Awaiting(ViewOf(s), request, sub, ri)
    requires StillAwaiting(lib, s, more, request, sub)
    ensures Inv(AfterFrom(lib, s, more)) && CallTheorems.FreshIds(AfterFrom(lib, s, more))
    ensures Awaiting(ViewOf(AfterFrom(lib, s, more)), request, sub, ri)
    decreases |more|
  {
    if more != [] {
      var n := |more| - 1;
      assert forall i :: 0 <= i < n ==> more[..n][..i] == more[..i];
      StaysAwaiting(lib, s, more[..n], request, sub, ri);
      AwaitingOneStep(lib, AfterFrom(lib, s, more[..n]), more[n], request, sub, ri);
    }
  }

  lemma ConfirmDelivers(v: View, request: int, sub: nat, ri: Ri, answer: Frame)
    requires GoodView(v) && Awaiting(v, request, sub, ri)
    ensures
      var subs := Subs.Confirm(v.subs, request, answer);
      Subs.Entry(true, sub, ri) in subs.table && Log(subs.logs, sub) == [answer] && request !in subs.requests
  {
    var k :| 0 <= k < |v.subs.table| && v.subs.table[k] == Subs.Entry(false, sub, ri);
    assert Subs.Position(v.subs.table, sub) == k;
    assert Subs.Confirm(v.subs, request, answer).table[k] == Subs.Entry(true, sub, ri);
  }

  lemma AnswerStep(lib: Library, s: State, request: int, sub: nat, ri: Ri, answer: Frame)
    requires Inv(s) && CallTheorems.FreshIds(s) && Awaiting(ViewOf(s), request, sub, ri) && s.status.Running?
    requires answer.ResponseFrame? && answer.id == Some(request) && answer.body.Some?
    ensures
      var s' := Step(lib, s, NextEvent(RpcFrameReceived(answer)));
      ConfirmedIn(s', sub, ri) && Log(s'.subs.logs, sub) == [answer] && s'.calls == s.calls
  {
    assert forall id :: id in s.calls.pending ==> s.callers.issued[s.calls.pending[id].caller].RequestId() == Some(id);
    ConfirmDelivers(ViewOf(s), request, sub, ri, answer);
  }

  /**
   * The first response to a subscribe request, whatever it says, goes to its subscriber alone and confirms
   * the subscription, unless the subscription was removed or the connection lost in between.
   */
  lemma FirstResponseConfirms(lib: Library, run: seq<Action>, more: seq<Action>,
                              request: int, sub: nat, ri: Ri, answer: Frame)
    requires CallTheorems.FreshRun(run) && Awaiting(ViewOf(After(lib, run)), request, sub, ri)
    requires StillAwaiting(lib, After(lib, run), more, request, sub)
    requires AfterFrom(lib, After(lib, run), more).status.Running?
    requires answer.ResponseFrame? && answer.id == Some(request) && answer.body.Some?
    ensures
      var s' := After(lib, run + more + [NextEvent(RpcFrameReceived(answer))]);
      ConfirmedIn(s', sub, ri) && Log(s'.subs.logs, sub) == [answer]
  {
    InvAlways(lib, run);
    CallTheorems.FreshAlways(lib, run);
    StaysAwaiting(lib, After(lib, run), more, request, sub, ri);
    AnswerStep(lib, AfterFrom(lib, After(lib, run), more), request, sub, ri, answer);
    RunsCompose(lib, run, more);
    var whole := run + more + [NextEvent(RpcFrameReceived(answer))];
    assert whole[..|whole| - 1] == run + more;
  }

  predicate IsSubscribe(m: Message) {
    var read := Subs.ReadRequest(m);
    read.Some? && read.value.0.Subscribing?
  }

  /** The step handles a Subscribe to an RI nobody holds, and makes this request for it. */
  predicate Asks(lib: Library, s: State, a: Action, request: Message, sub: nat, ri: Ri) {
    && Enabled(s, a) && a.NextCommand? && s.cmds[0].Subscribe? && s.cmds[0].sub == sub && s.version.Some?
    && Subs.AcceptedRi(lib, s.version.value, s.cmds[0].ri) == Some(ri) && !Subs.HasRi(s.subs.table, ri)
    && !Subs.HasId(s.subs.table, sub)
    && request == Subs.CreateSubscriptionRequest(ri, Subs.Subscribing, s.version.value, s.nextId)
  }

  ghost predicate WasAsked(lib: Library, run: seq<Action>, request: Message) {
    exists i, sub, ri :: 0 <= i < |run| && Asks(lib, After(lib, run[..i]), run[i], request, sub, ri)
  }

  lemma AskedIsAwaiting(lib: Library, s: State, request: Message, sub: nat, ri: Ri)
    requires Inv(s) && Asks(lib, s, NextCommand, request, sub, ri)
    ensures
      var s' := Step(lib, s, NextCommand);
      request.RequestId() == Some(s.nextId) && Awaiting(ViewOf(s'), s.nextId, sub, ri) && Log(s'.subs.logs, sub) == []
  {
    var s' := Step(lib, s, NextCommand);
    assert s'.subs.table == s.subs.table + [Subs.Entry(false, sub, ri)];
    assert s'.subs.table[|s.subs.table|] == Subs.Entry(false, sub, ri);
    PopWaiting(s);
    assert WaitingSubs(s)[0] == sub;
  }

  lemma NewBySubscribe(lib: Library, s: State, ri: Ri, sub: nat, m: Message)
    ensures
      var s' := HandleSubscribe(lib, s, ri, sub);
      s'.sent == s.sent && (m in Queued(s'.cmds, FromSubscription) ==>
        || m in Queued(s.cmds, FromSubscription)
        || (s.version.Some? && !Subs.HasId(s.subs.table, sub)
            && var accepted := Subs.AcceptedRi(lib, s.version.value, ri);
               accepted.Some? && !Subs.HasRi(s.subs.table, accepted.value)
               && m == Subs.CreateSubscriptionRequest(accepted.value, Subs.Subscribing, s.version.value, s.nextId)))
  {
    var cmds := HandleSubscribe(lib, s, ri, sub).cmds;
    if cmds != s.cmds { QueuedAppend(s.cmds, cmds[|s.cmds|], FromSubscription); }
  }

  lemma NoneByUnsubscribe(s: State, sub: nat, m: Message)
    requires IsSubscribe(m)
    ensures HandleUnsubscribe(s, sub).sent == s.sent
    ensures m in Queued(HandleUnsubscribe(s, sub).cmds, FromSubscription) ==> m in Queued(s.cmds, FromSubscription)
  {
    var cmds := HandleUnsubscribe(s, sub).cmds;
    if cmds != s.cmds {
      QueuedAppend(s.cmds, cmds[|s.cmds|], FromSubscription);
      Subs.RequestReadsBack(Subs.Orphaned(s.subs.table, sub).value, Subs.Unsubscribing, s.version.value, s.nextId);
    }
  }

  predicate OnItsWay(s: State, m: Message) {
    m in Queued(s.cmds, FromSubscription) || m in SentBy(s.sent, FromSubscription)
  }

  lemma NewByCommand(lib: Library, s: State, m: Message)
    requires s.status.Running? && s.cmds != [] && IsSubscribe(m) && OnItsWay(HandleCommand(lib, s), m)
    ensures OnItsWay(s, m) || exists sub, ri :: Asks(lib, s, NextCommand, m, sub, ri)
  {
    var popped := Pop(s);
    match s.cmds[0]
    case RpcCall(request, _) => QueuedAppend(popped.cmds, SendMessage(request, FromCall), FromSubscription);
    case SendMessage(message, origin) => SentAppend(s.sent, Sent(message, origin, s.conn), FromSubscription);
    case Subscribe(ri, sub) =>
      NewBySubscribe(lib, popped, ri, sub, m);
      if !OnItsWay(s, m) {
        assert Asks(lib, s, NextCommand, m, sub, Subs.AcceptedRi(lib, s.version.value, ri).value);
      }
    case Unsubscribe(sub) => NoneByUnsubscribe(popped, sub, m);
    case TerminateClient =>
  }

  lemma NewByOthers(lib: Library, s: State, a: Action, m: Message)
    requires !a.NextCommand? && OnItsWay(Step(lib, s, a), m)
    ensures OnItsWay(s, m)
  {
    CallTheorems.AppendsOneAtMost(lib, s, a);
    var cmds := Step(lib, s, a).cmds;
    if cmds != s.cmds { QueuedAppend(s.cmds, cmds[|s.cmds|], FromSubscription); }
  }

  /** Every subscribe request queued or handled was made by an earlier step, which entered it among the unanswered. */
  lemma {:induction false} SubscribeRequestsAreRegistered(lib: Library, run: seq<Action>, m: Message)
    requires IsSubscribe(m) && OnItsWay(After(lib, run), m)
    ensures WasAsked(lib, run, m)
  {
    var n := |run| - 1;
    var before := After(lib, run[..n]);
    if OnItsWay(before, m) {
      SubscribeRequestsAreRegistered(lib, run[..n], m);
      var i, sub, ri :| 0 <= i < n && Asks(lib, After(lib, run[..n][..i]), run[..n][i], m, sub, ri);
      assert run[..n][..i] == run[..i];
    } else if run[n].NextCommand? && Enabled(before, run[n]) {
      NewByCommand(lib, before, m);
      var sub, ri :| Asks(lib, before, run[n], m, sub, ri);
    } else if !run[n].NextCommand? {
      NewByOthers(lib, before, run[n], m);
    }
  }

  lemma AwaitingOnceAsked(lib: Library, run: seq<Action>, i: nat, request: Message, sub: nat, ri: Ri)
    requires i < |run| && Asks(lib, After(lib, run[..i]), run[i], request, sub, ri)
    ensures request.RequestId().Some?
    ensures Awaiting(ViewOf(After(lib, run[..i + 1])), request.RequestId().value, sub, ri)
  {
    PrefixStep(lib, run, i);
    InvAlways(lib, run[..i]);
    AskedIsAwaiting(lib, After(lib, run[..i]), request, sub, ri);
  }

  lemma AskedGetsAnswer(lib: Library, run: seq<Action>, i: nat, request: Message, sub: nat, ri: Ri,
                        more: seq<Action>, answer: Frame)
    requires CallTheorems.FreshRun(run) && i < |run| && Asks(lib, After(lib, run[..i]), run[i], request, sub, ri)
    requires request.RequestId().Some?
    requires StillAwaiting(lib, After(lib, run[..i + 1]), run[i + 1..] + more, request.RequestId().value, sub)
    requires After(lib, run + more).status.Running?
    requires answer.ResponseFrame? && answer.id == request.RequestId() && answer.body.Some?
    ensures
      var s' := After(lib, run + more + [NextEvent(RpcFrameReceived(answer))]);
      ConfirmedIn(s', sub, ri) && Log(s'.subs.logs, sub) == [answer]
  {
    var upto, rest := run[..i + 1], run[i + 1..] + more;
    AwaitingOnceAsked(lib, run, i, request, sub, ri);
    assert upto + rest == run + more;
    RunsCompose(lib, upto, rest);
    assert CallTheorems.FreshRun(upto);
    FirstResponseConfirms(lib, upto, rest, request.RequestId().value, sub, ri, answer);
  }

  /**
   * Every subscribe request handed to the connection in use was made by an earlier step for some subscription. The
   * first response to it after that is the first frame of that subscription and confirms it, unless the
   * subscription was removed or the connection lost since.
   */
  lemma HandedOverSubscribeGetsAnswer(lib: Library, run: seq<Action>, request: Message)
    returns (i: nat, sub: nat, ri: Ri)
    requires CallTheorems.FreshRun(run) && IsSubscribe(request)
    requires request in SentBy(HandedOver(After(lib, run)), FromSubscription)
    ensures i < |run| && Asks(lib, After(lib, run[..i]), run[i], request, sub, ri) && request.RequestId().Some?
    ensures forall more, answer: Frame ::
              && StillAwaiting(lib, After(lib, run[..i + 1]), run[i + 1..] + more, request.RequestId().value, sub)
              && After(lib, run + more).status.Running?
              && answer.ResponseFrame? && answer.id == request.RequestId() && answer.body.Some? ==>
                var s' := After(lib, run + more + [NextEvent(RpcFrameReceived(answer))]);
                ConfirmedIn(s', sub, ri) && Log(s'.subs.logs, sub) == [answer]
  {
    var s := After(lib, run);
    CallTheorems.SentByTail(s.sent, s.mark, FromSubscription, request);
    SubscribeRequestsAreRegistered(lib, run, request);
    i, sub, ri :| 0 <= i < |run| && Asks(lib, After(lib, run[..i]), run[i], request, sub, ri);
    AwaitingOnceAsked(lib, run, i, request, sub, ri);
    forall more, answer: Frame |
        && StillAwaiting(lib, After(lib, run[..i + 1]), run[i + 1..] + more, request.RequestId().value, sub)
        && After(lib, run + more).status.Running?
        && answer.ResponseFrame? && answer.id == request.RequestId() && answer.body.Some?
      ensures
        var s' := After(lib, run + more + [NextEvent(RpcFrameReceived(answer))]);
        ConfirmedIn(s', sub, ri) && Log(s'.subs.logs, sub) == [answer]
    {
      AskedGetsAnswer(lib, run, i, request, sub, ri, more, answer);
    }
  }

  lemma RequestsTakeNewIds(lib: Library, s: State, ri: Ri, sub: nat, m: Message)
    ensures
      var s' := HandleSubscribe(lib, s, ri, sub);
      m in Queued(s'.cmds, FromSubscription) ==>
        m in Queued(s.cmds, FromSubscription) || (m.RequestId() == Some(s.nextId) && s'.nextId == s.nextId + 1)
    ensures
      var s' := HandleUnsubscribe(s, sub);
      m in Queued(s'.cmds, FromSubscription) ==>
        m in Queued(s.cmds, FromSubscription) || (m.RequestId() == Some(s.nextId) && s'.nextId == s.nextId + 1)
    ensures HandleSubscribe(lib, s, ri, sub).sent == s.sent && HandleUnsubscribe(s, sub).sent == s.sent
    ensures s.nextId <= HandleSubscribe(lib, s, ri, sub).nextId && s.nextId <= HandleUnsubscribe(s, sub).nextId
  {
    var cmds, cmds' := HandleSubscribe(lib, s, ri, sub).cmds, HandleUnsubscribe(s, sub).cmds;
    if cmds != s.cmds { QueuedAppend(s.cmds, cmds[|s.cmds|], FromSubscription); }
    if cmds' != s.cmds { QueuedAppend(s.cmds, cmds'[|s.cmds|], FromSubscription); }
  }

  lemma CommandTakesNewIds(lib: Library, s: State, m: Message)
    requires s.cmds != [] && OnItsWay(HandleCommand(lib, s), m)
    ensures
      var s' := HandleCommand(lib, s);
      s.nextId <= s'.nextId && (OnItsWay(s, m) || (m.RequestId() == Some(s.nextId) && s'.nextId == s.nextId + 1))
  {
    var popped := Pop(s);
    match s.cmds[0]
    case RpcCall(request, _) => QueuedAppend(popped.cmds, SendMessage(request, FromCall), FromSubscription);
    case SendMessage(message, origin) => SentAppend(s.sent, Sent(message, origin, s.conn), FromSubscription);
    case Subscribe(ri, sub) => RequestsTakeNewIds(lib, popped, ri, sub, m);
    case Unsubscribe(sub) => RequestsTakeNewIds(lib, popped, Ri("", "", None), sub, m);
    case TerminateClient =>
  }

  /** No call has the id of a subscription request, answered or not, queued or sent. */
  ghost predicate IdsApart(s: State) {
    forall m :: OnItsWay(s, m) ==>
      && m.RequestId().Some? && m.RequestId().value < s.nextId
      && forall c :: 0 <= c < |s.callers.issued| ==> s.callers.issued[c].RequestId() != m.RequestId()
  }

  lemma IssuedByOthers(lib: Library, s: State, a: Action)
    requires !a.NextCommand? && !a.RawRpcCall?
    ensures
      var issued, s' := s.callers.issued, Step(lib, s, a);
      && s.nextId <= s'.nextId
      && (s'.callers.issued == issued
          || (|s'.callers.issued| == |issued| + 1 && issued <= s'.callers.issued
              && s'.callers.issued[|issued|].RequestId() == Some(s.nextId) && s'.nextId == s.nextId + 1))
  {
  }

  lemma IdsApartAfterCommand(lib: Library, s: State)
    requires CallTheorems.FreshIds(s) && IdsApart(s) && s.cmds != []
    ensures IdsApart(HandleCommand(lib, s))
  {
    var s' := HandleCommand(lib, s);
    assert s'.callers == s.callers;
    forall m | OnItsWay(s', m)
      ensures m.RequestId().Some? && m.RequestId().value < s'.nextId
      ensures forall c :: 0 <= c < |s.callers.issued| ==> s.callers.issued[c].RequestId() != m.RequestId()
    {
      CommandTakesNewIds(lib, s, m);
    }
  }

  lemma IdsApartAfterOther(lib: Library, s: State, a: Action)
    requires IdsApart(s) && !a.NextCommand? && !a.RawRpcCall?
    ensures IdsApart(Step(lib, s, a))
  {
    IssuedByOthers(lib, s, a);
    forall m | OnItsWay(Step(lib, s, a), m) ensures OnItsWay(s, m) {
      NewByOthers(lib, s, a, m);
    }
  }

  lemma IdsApartAfterStep(lib: Library, s: State, a: Action)
    requires CallTheorems.FreshIds(s) && IdsApart(s) && !a.RawRpcCall?
    ensures IdsApart(Step(lib, s, a))
  {
    if !a.NextCommand? {
      IdsApartAfterOther(lib, s, a);
    } else if Enabled(s, a) {
      IdsApartAfterCommand(lib, s);
    }
  }

  lemma {:induction false} IdsApartAlways(lib: Library, run: seq<Action>)
    requires CallTheorems.FreshRun(run)
    ensures IdsApart(After(lib, run))
  {
    if run != [] {
      var before := run[..|run| - 1];
      IdsApartAlways(lib, before);
      CallTheorems.FreshAlways(lib, before);
      IdsApartAfterStep(lib, After(lib, before), run[|run| - 1]);
    }
  }

  /** With ids from `new_request` no two calls share an id, and no call has that of any subscription request. */
  lemma NoIdIsShared(lib: Library, run: seq<Action>)
    requires CallTheorems.FreshRun(run)
    ensures
      var s := After(lib, run);
      && (forall c, c' :: 0 <= c < c' < |s.callers.issued| ==>
            s.callers.issued[c].RequestId() != s.callers.issued[c'].RequestId())
      && (forall c, m :: 0 <= c < |s.callers.issued| && OnItsWay(s, m) ==>
            s.callers.issued[c].RequestId() != m.RequestId())
  {
    CallTheorems.FreshAlways(lib, run);
    IdsApartAlways(lib, run);
  }

  // ------------------------------------------------------------------ panics

  /** The loop panics exactly when it handles an Unsubscribe without knowing the API version. */
  lemma PanicsExactly(lib: Library, s: State, a: Action)
    requires Inv(s) && s.status.Running?
    ensures Step(lib, s, a).status.Panicked?
       <==> a.NextCommand? && s.cmds != [] && s.cmds[0].Unsubscribe? && s.version.None?
    ensures Step(lib, s, a).status.Panicked? ==> Step(lib, s, a).status.reason.UnknownVersion?
  {
    if a.NextCommand? && s.cmds != [] && s.cmds[0].Subscribe? {
      InvAfterSubscribe(lib, s);
    }
  }

  /** The action handles an Unsubscribe while the version is unknown. */
  predicate UnsubscribesTooEarly(s: State, a: Action) {
    s.status.Running? && a.NextCommand? && s.cmds != [] && s.cmds[0].Unsubscribe? && s.version.None?
  }

  lemma {:induction false} PanickedStays(lib: Library, run: seq<Action>, i: nat)
    requires i <= |run| && After(lib, run[..i]).status.Panicked?
    ensures After(lib, run).status.Panicked?
    decreases |run|
  {
    if i == |run| {
      assert run[..i] == run;
    } else {
      assert run[..|run| - 1][..i] == run[..i];
      PanickedStays(lib, run[..|run| - 1], i);
    }
  }

  lemma {:induction false} PanicHasCause(lib: Library, run: seq<Action>)
    requires After(lib, run).status.Panicked?
    ensures exists i :: 0 <= i < |run| && UnsubscribesTooEarly(After(lib, run[..i]), run[i])
  {
    var n := |run| - 1;
    var s := After(lib, run[..n]);
    if s.status.Panicked? {
      PanicHasCause(lib, run[..n]);
      var i :| 0 <= i < n && UnsubscribesTooEarly(After(lib, run[..n][..i]), run[..n][i]);
      assert run[..n][..i] == run[..i];
    } else {
      InvAlways(lib, run[..n]);
      PanicsExactly(lib, s, run[n]);
    }
  }

  /** So a run panics exactly if some action of it does that. */
  lemma RunPanicsExactly(lib: Library, run: seq<Action>)
    ensures After(lib, run).status.Panicked?
       <==> exists i :: 0 <= i < |run| && UnsubscribesTooEarly(After(lib, run[..i]), run[i])
  {
    if After(lib, run).status.Panicked? {
      PanicHasCause(lib, run);
    }
    if i :| 0 <= i < |run| && UnsubscribesTooEarly(After(lib, run[..i]), run[i]) {
      InvAlways(lib, run[..i]);
      PanicsExactly(lib, After(lib, run[..i]), run[i]);
      assert run[..i + 1][..i] == run[..i];
      PanickedStays(lib, run, i + 1);
    }
  }

  /** Once known, the API version is never forgotten. */
  lemma {:induction false} VersionStaysKnown(lib: Library, s: State, more: seq<Action>)
    requires s.version.Some?
    ensures AfterFrom(lib, s, more).version.Some?
    decreases |more|
  {
    if more != [] {
      VersionStaysKnown(lib, s, more[..|more| - 1]);
    }
  }

  /** In particular the assertion on duplicate subscription ids never fires. */
  lemma {:induction false} IdsNeverCollide(lib: Library, run: seq<Action>)
    ensures After(lib, run).status != Panicked(DuplicateSubscriptionId)
  {
    if run != [] {
      var s := After(lib, run[..|run| - 1]);
      IdsNeverCollide(lib, run[..|run| - 1]);
      InvAlways(lib, run[..|run| - 1]);
      if s.status.Running? { PanicsExactly(lib, s, run[|run| - 1]); }
    }
  }

  /** Every Subscribe command of the run is handled after the API version is known. */
  ghost predicate SubscribesAfterVersion(lib: Library, run: seq<Action>) {
    forall i :: 0 <= i < |run| && run[i].NextCommand? ==>
      SubscribeOk(After(lib, run[..i]))
  }

  predicate SubscribeOk(s: State) {
    s.cmds != [] && s.cmds[0].Subscribe? ==> s.version.Some?
  }

  predicate SubscribedBefore(cmds: seq<Command>, sub: nat, j: nat)
    requires j <= |cmds|
  {
    exists i :: 0 <= i < j && cmds[i].Subscribe? && cmds[i].sub == sub
  }

  /** Before the version is known every subscription ever made is still queued, ahead of its Unsubscribe. */
  ghost predicate NothingHandledYet(s: State) {
    && (forall sub :: sub in s.callers.alive ==> sub < s.callers.nextSub)
    && (s.version.None? ==>
          && (forall sub: nat :: sub < s.callers.nextSub ==> SubscribedBefore(s.cmds, sub, |s.cmds|))
          && (forall j :: 0 <= j < |s.cmds| && s.cmds[j].Unsubscribe? ==> SubscribedBefore(s.cmds, s.cmds[j].sub, j)))
  }

  lemma NothingHandledAfterAppend(s: State, c: Command)
    requires NothingHandledYet(s) && (c.Unsubscribe? ==> c.sub < s.callers.nextSub)
    ensures NothingHandledYet(s.(cmds := s.cmds + [c]))
  {
    var cmds := s.cmds + [c];
    if s.version.None? {
      forall sub: nat | sub < s.callers.nextSub ensures SubscribedBefore(cmds, sub, |s.cmds|) {
        assert SubscribedBefore(s.cmds, sub, |s.cmds|);
        var i :| 0 <= i < |s.cmds| && s.cmds[i].Subscribe? && s.cmds[i].sub == sub;
        assert cmds[i] == s.cmds[i];
      }
      forall j | 0 <= j < |cmds| && cmds[j].Unsubscribe? ensures SubscribedBefore(cmds, cmds[j].sub, j) {
        if j < |s.cmds| {
          assert SubscribedBefore(s.cmds, s.cmds[j].sub, j);
          var i :| 0 <= i < j && s.cmds[i].Subscribe? && s.cmds[i].sub == cmds[j].sub;
          assert cmds[i] == s.cmds[i];
        }
      }
      forall sub: nat | sub < s.callers.nextSub ensures SubscribedBefore(cmds, sub, |cmds|) {
        assert SubscribedBefore(cmds, sub, |s.cmds|);
      }
    }
  }

  lemma NothingHandledAfterPop(s: State)
    requires NothingHandledYet(s) && s.cmds != [] && !s.cmds[0].Subscribe?
    ensures NothingHandledYet(Pop(s))
    ensures s.version.None? ==> !s.cmds[0].Unsubscribe?
  {
    var cmds := s.cmds[1..];
    if s.version.None? {
      forall sub: nat | sub < s.callers.nextSub ensures SubscribedBefore(cmds, sub, |cmds|) {
        assert SubscribedBefore(s.cmds, sub, |s.cmds|);
        var i :| 0 <= i < |s.cmds| && s.cmds[i].Subscribe? && s.cmds[i].sub == sub;
        assert cmds[i - 1] == s.cmds[i];
      }
      forall j | 0 <= j < |cmds| && cmds[j].Unsubscribe? ensures SubscribedBefore(cmds, cmds[j].sub, j) {
        assert s.cmds[j + 1] == cmds[j] && SubscribedBefore(s.cmds, cmds[j].sub, j + 1);
        var i :| 0 <= i < j + 1 && s.cmds[i].Subscribe? && s.cmds[i].sub == cmds[j].sub;
        assert cmds[i - 1] == s.cmds[i];
      }
      assert forall j ::
        0 <= j < |s.cmds| && s.cmds[j].Unsubscribe? && SubscribedBefore(s.cmds, s.cmds[j].sub, j) ==> j > 0;
    }
  }

  lemma NothingHandledAfterDoSubscribe(s: State, ri: Ri)
    requires NothingHandledYet(s)
    ensures NothingHandledYet(IssueSubscribe(s, ri))
  {
    var cmds := s.cmds + [Subscribe(ri, s.callers.nextSub)];
    NothingHandledAfterAppend(s, Subscribe(ri, s.callers.nextSub));
    assert cmds[|s.cmds|].Subscribe? && cmds[|s.cmds|].sub == s.callers.nextSub;
  }

  lemma NothingHandledAfterCommand(lib: Library, s: State)
    requires NothingHandledYet(s) && s.cmds != [] && SubscribeOk(s)
    ensures NothingHandledYet(HandleCommand(lib, s))
  {
    if s.version.None? {
      NothingHandledAfterPop(s);
      if s.cmds[0].RpcCall? {
        NothingHandledAfterAppend(Pop(s), SendMessage(s.cmds[0].request, FromCall));
      }
    }
  }

  lemma NothingHandledAfterStep(lib: Library, s: State, a: Action)
    requires NothingHandledYet(s) && (a.NextCommand? ==> SubscribeOk(s))
    ensures NothingHandledYet(Step(lib, s, a))
    ensures s.status.Running? && s.version.None? && a.NextCommand? && s.cmds != [] ==> !s.cmds[0].Unsubscribe?
  {
    if Enabled(s, a) {
      match a
      case NextCommand =>
        NothingHandledAfterCommand(lib, s);
        if !s.cmds[0].Subscribe? { NothingHandledAfterPop(s); }
      case DoSubscribe(ri) => NothingHandledAfterDoSubscribe(s, ri);
      case NextEvent(event) =>
        var cmds := HandleEvent(lib, s, event).cmds;
        if cmds != s.cmds { NothingHandledAfterAppend(s, cmds[|s.cmds|]); }
      case DoRpcCall(path, rpcMethod, param) =>
        NothingHandledAfterAppend(s, RpcCall(Request(Some(s.nextId), path, rpcMethod, param), |s.callers.issued|));
      case RawRpcCall(request) => NothingHandledAfterAppend(s, RpcCall(request, |s.callers.issued|));
      case DoSendMessage(message) => NothingHandledAfterAppend(s, SendMessage(message, Application));
      case DropSubscriber(sub) => NothingHandledAfterAppend(s, Unsubscribe(sub));
      case DoTerminate => NothingHandledAfterAppend(s, TerminateClient);
      case _ =>
    }
  }

  lemma {:induction false} NothingHandledAlways(lib: Library, run: seq<Action>)
    requires SubscribesAfterVersion(lib, run)
    ensures NothingHandledYet(After(lib, run)) && !After(lib, run).status.Panicked?
  {
    if run != [] {
      var n := |run| - 1;
      var s := After(lib, run[..n]);
      assert forall i :: 0 <= i < n ==> run[..n][..i] == run[..i];
      NothingHandledAlways(lib, run[..n]);
      InvAlways(lib, run[..n]);
      NothingHandledAfterStep(lib, s, run[n]);
      if s.status.Running? { PanicsExactly(lib, s, run[n]); }
    }
  }

  /** If every Subscribe is handled after the version is known, the loop never panics. */
  lemma NoPanic(lib: Library, run: seq<Action>)
    requires SubscribesAfterVersion(lib, run)
    ensures !After(lib, run).status.Panicked?
  {
    NothingHandledAlways(lib, run);
  }

  /** Otherwise it can: a subscriber refused before the version is known is dropped before it is known. */
  lemma EarlySubscriberPanics(lib: Library, ri: Ri)
    ensures After(lib, [DoSubscribe(ri), NextCommand, DropSubscriber(0), NextCommand]).status
         == Panicked(UnknownVersion)
  {
    var run := [DoSubscribe(ri), NextCommand, DropSubscriber(0), NextCommand];
    assert run[..3][..2] == run[..2] && run[..2][..1] == run[..1] && run[..1][..0] == [];
    assert After(lib, run[..1]).cmds == [Subscribe(ri, 0)];
    assert After(lib, run[..2]).cmds == [] && After(lib, run[..2]).callers.alive == {0};
    assert After(lib, run[..3]).cmds == [Unsubscribe(0)];
  }
}
