/** The subscription table and what the broker on the other end of a connection has been told. */
module BrokerTheorems {
  import opened Basics
  import opened Wire
  import opened Client
  import opened ClientSafety
  import Calls = RpcCalls
  import Subs = Subscriptions
  import CallTheorems
  import SubscriptionTheorems

  /** Subscription messages of the current connection: already handed over, then still queued. */
  function SubscriptionMessages(s: State): seq<Message> {
    SentBy(HandedOver(s), FromSubscription) + Queued(s.cmds, FromSubscription)
  }

  /** The messages say, one by one, what the requests of the table's log say. */
  ghost predicate Tells(version: ApiVersion, messages: seq<Message>, log: seq<Subs.Emitted>) {
    && |messages| == |log|
    && forall i :: 0 <= i < |log| ==>
         Subs.ReadRequest(messages[i]) == Some((log[i].kind, Subs.KeyOf(version, log[i].ri)))
  }

  // --------------------------------------------- one step and its messages

  /** Neither a reconnect nor another API version. */
  predicate SameConnection(a: Action, version: ApiVersion) {
    && (a.NextEvent? ==> !a.event.Connected? && !a.event.Disconnected?)
    && (a.VersionResult? && a.result.Some? ==> a.result == Some(version))
  }

  ghost predicate AllSameConnection(more: seq<Action>, version: ApiVersion) {
    forall i :: 0 <= i < |more| ==> SameConnection(more[i], version)
  }

  /** A connection is in use, and no version is known but this one. */
  ghost predicate OnConnection(version: ApiVersion, s: State) {
    Inv(s) && s.conn.Some? && (s.version.None? || s.version == Some(version))
  }

  lemma StillOnConnection(lib: Library, version: ApiVersion, s: State, a: Action)
    requires OnConnection(version, s) && SameConnection(a, version)
    ensures OnConnection(version, Step(lib, s, a))
  {
    InvAfterStep(lib, s, a);
  }

  lemma {:induction false} OnConnectionThroughout(lib: Library, version: ApiVersion, s: State, more: seq<Action>)
    requires OnConnection(version, s) && AllSameConnection(more, version)
    ensures OnConnection(version, AfterFrom(lib, s, more))
    decreases |more|
  {
    if more != [] {
      var n := |more| - 1;
      OnConnectionThroughout(lib, version, s, more[..n]);
      StillOnConnection(lib, version, AfterFrom(lib, s, more[..n]), more[n]);
    }
  }

  /** The request an effect on the subscription tables adds to the log. */
  function RequestOf(table: seq<Subs.Entry>, e: SubscriptionTheorems.Effect): Option<Subs.Emitted> {
    match e
    case AddNew(ri, _) => Some(Subs.Emitted(Subs.Subscribing, ri))
    case Remove(sub) =>
      var orphaned := Subs.Orphaned(table, sub);
      if orphaned.Some? then Some(Subs.Emitted(Subs.Unsubscribing, orphaned.value)) else None
    case _ => None
  }

  function RequestMade(lib: Library, s: State, a: Action): Option<Subs.Emitted> {
    RequestOf(s.subs.table, SubscriptionTheorems.EffectOf(lib, s, a))
  }

  lemma LogUnderEffect(lib: Library, v: SubscriptionTheorems.View, e: SubscriptionTheorems.Effect)
    requires SubscriptionTheorems.Possible(v, e) && !e.Clear?
    ensures
      var made := RequestOf(v.subs.table, e);
      SubscriptionTheorems.Affect(lib, v, e).subs.emitted
      == if made.Some? then v.subs.emitted + [made.value] else v.subs.emitted
  {
  }

  lemma LogGrowsBy(lib: Library, s: State, a: Action)
    requires Inv(s) && a != NextEvent(Disconnected)
    ensures
      var made := RequestMade(lib, s, a);
      Step(lib, s, a).subs.emitted == if made.Some? then s.subs.emitted + [made.value] else s.subs.emitted
  {
    SubscriptionTheorems.StepHasEffect(lib, s, a);
    LogUnderEffect(lib, SubscriptionTheorems.ViewOf(s), SubscriptionTheorems.EffectOf(lib, s, a));
    assert SubscriptionTheorems.ViewOf(Step(lib, s, a)).subs == Step(lib, s, a).subs;
  }

  /** The message that carries it. */
  function MessagesMade(lib: Library, s: State, a: Action): seq<Message> {
    var made := RequestMade(lib, s, a);
    if made.Some? && s.version.Some?
    then [Subs.CreateSubscriptionRequest(made.value.ri, made.value.kind, s.version.value, s.nextId)] else []
  }

  lemma MessagesAfterAppend(s: State, s': State, c: Command)
    requires s'.cmds == s.cmds + [c] && s'.sent == s.sent && s'.mark == s.mark && s'.conn == s.conn
    ensures SubscriptionMessages(s')
         == if c.SendMessage? && c.origin == FromSubscription then SubscriptionMessages(s) + [c.message]
            else SubscriptionMessages(s)
  {
    QueuedAppend(s.cmds, c, FromSubscription);
    assert Queued(s.cmds, FromSubscription) + [] == Queued(s.cmds, FromSubscription);
  }

  lemma MessagesAfterPop(s: State)
    requires s.cmds != [] && !s.cmds[0].SendMessage?
    ensures SubscriptionMessages(Pop(s)) == SubscriptionMessages(s)
  {
    assert [] + Queued(s.cmds[1..], FromSubscription) == Queued(s.cmds[1..], FromSubscription);
  }

  lemma HandedOverAfterSend(s: State, message: Message, origin: Origin)
    requires s.conn.Some? && s.mark <= |s.sent|
    ensures HandedOver(HandleSendMessage(s, message, origin)) == HandedOver(s) + [Sent(message, origin, s.conn)]
  {
  }

  lemma SendKeepsMessages(lib: Library, s: State)
    requires s.conn.Some? && s.mark <= |s.sent| && s.cmds != [] && s.cmds[0].SendMessage?
    ensures SubscriptionMessages(HandleCommand(lib, s)) == SubscriptionMessages(s)
  {
    HandedOverAfterSend(Pop(s), s.cmds[0].message, s.cmds[0].origin);
    SendMoves(s.cmds, HandedOver(s), s.conn, FromSubscription);
  }

  lemma MessagesAfterSubscribe(lib: Library, s: State, ri: Ri, sub: nat)
    requires !Subs.HasId(s.subs.table, sub)
    ensures
      var e := SubscriptionTheorems.SubscribeEffect(lib, s, ri);
      SubscriptionMessages(HandleSubscribe(lib, s, ri, sub))
      == if e.AddNew?
         then SubscriptionMessages(s)
              + [Subs.CreateSubscriptionRequest(e.ri, Subs.Subscribing, s.version.value, s.nextId)]
         else SubscriptionMessages(s)
  {
    var s' := HandleSubscribe(lib, s, ri, sub);
    if s'.cmds != s.cmds {
      MessagesAfterAppend(s, s', s'.cmds[|s.cmds|]);
    }
  }

  lemma MessagesAfterUnsubscribe(s: State, sub: nat)
    requires s.version.Some?
    ensures
      var orphaned := Subs.Orphaned(s.subs.table, sub);
      SubscriptionMessages(HandleUnsubscribe(s, sub))
      == if orphaned.Some?
         then SubscriptionMessages(s)
              + [Subs.CreateSubscriptionRequest(orphaned.value, Subs.Unsubscribing, s.version.value, s.nextId)]
         else SubscriptionMessages(s)
  {
    var s' := HandleUnsubscribe(s, sub);
    if s'.cmds != s.cmds {
      MessagesAfterAppend(s, s', s'.cmds[|s.cmds|]);
    }
  }

  lemma MadeByCommand(lib: Library, s: State)
    requires s.status.Running? && s.cmds != []
    ensures
      var e := SubscriptionTheorems.CommandEffect(lib, s);
      MessagesMade(lib, s, NextCommand)
      == match e
         case AddNew(ri, _) => [Subs.CreateSubscriptionRequest(ri, Subs.Subscribing, s.version.value, s.nextId)]
         case Remove(sub) =>
           var orphaned := Subs.Orphaned(s.subs.table, sub);
           if orphaned.Some?
           then [Subs.CreateSubscriptionRequest(orphaned.value, Subs.Unsubscribing, s.version.value, s.nextId)] else []
         case _ => []
  {
  }

  lemma MessagesAfterSubscribeCommand(lib: Library, s: State)
    requires Inv(s) && s.status.Running? && s.cmds != [] && s.cmds[0].Subscribe?
    ensures SubscriptionMessages(HandleCommand(lib, s)) == SubscriptionMessages(s) + MessagesMade(lib, s, NextCommand)
  {
    MadeByCommand(lib, s);
    SubscribedIdIsNew(s);
    MessagesAfterPop(s);
    MessagesAfterSubscribe(lib, Pop(s), s.cmds[0].ri, s.cmds[0].sub);
    assert SubscriptionMessages(s) + [] == SubscriptionMessages(s);
    assert SubscriptionTheorems.SubscribeEffect(lib, Pop(s), s.cmds[0].ri)
        == SubscriptionTheorems.CommandEffect(lib, s);
  }

  lemma MessagesAfterUnsubscribeCommand(lib: Library, s: State)
    requires s.status.Running? && s.cmds != [] && s.cmds[0].Unsubscribe?
    ensures SubscriptionMessages(HandleCommand(lib, s)) == SubscriptionMessages(s) + MessagesMade(lib, s, NextCommand)
  {
    MadeByCommand(lib, s);
    MessagesAfterPop(s);
    assert SubscriptionMessages(s) + [] == SubscriptionMessages(s);
    if s.version.Some? {
      MessagesAfterUnsubscribe(Pop(s), s.cmds[0].sub);
    } else {
      assert HandleCommand(lib, s).cmds == Pop(s).cmds;
    }
  }

  lemma MessagesAfterOtherCommand(lib: Library, s: State)
    requires s.conn.Some? && s.mark <= |s.sent| && s.cmds != [] && !s.cmds[0].Subscribe? && !s.cmds[0].Unsubscribe?
    ensures SubscriptionMessages(HandleCommand(lib, s)) == SubscriptionMessages(s)
  {
    if s.cmds[0].SendMessage? {
      SendKeepsMessages(lib, s);
    } else {
      MessagesAfterPop(s);
      var popped, s' := Pop(s), HandleCommand(lib, s);
      if s'.cmds != popped.cmds {
        MessagesAfterAppend(popped, s', s'.cmds[|popped.cmds|]);
      }
    }
  }

  lemma MessagesAfterCommand(lib: Library, s: State)
    requires Inv(s) && s.conn.Some? && s.status.Running? && s.cmds != []
    ensures SubscriptionMessages(HandleCommand(lib, s)) == SubscriptionMessages(s) + MessagesMade(lib, s, NextCommand)
  {
    if s.cmds[0].Subscribe? {
      MessagesAfterSubscribeCommand(lib, s);
    } else if s.cmds[0].Unsubscribe? {
      MessagesAfterUnsubscribeCommand(lib, s);
    } else {
      MessagesAfterOtherCommand(lib, s);
      assert MessagesMade(lib, s, NextCommand) == [];
      assert SubscriptionMessages(s) + [] == SubscriptionMessages(s);
    }
  }

  lemma SameChannel(lib: Library, version: ApiVersion, s: State, a: Action)
    requires SameConnection(a, version)
    ensures Step(lib, s, a).conn == s.conn && Step(lib, s, a).mark == s.mark
  {
  }

  lemma NothingMadeOtherwise(lib: Library, s: State, a: Action)
    requires !a.NextCommand?
    ensures RequestMade(lib, s, a).None?
  {
  }

  /** A step adds at most one subscription message, the one for the request it makes. */
  lemma MessagesGrowBy(lib: Library, version: ApiVersion, s: State, a: Action)
    requires OnConnection(version, s) && SameConnection(a, version)
    ensures SubscriptionMessages(Step(lib, s, a)) == SubscriptionMessages(s) + MessagesMade(lib, s, a)
  {
    if a.NextCommand? {
      if Enabled(s, a) { MessagesAfterCommand(lib, s); }
    } else {
      var s' := Step(lib, s, a);
      NothingMadeOtherwise(lib, s, a);
      SameChannel(lib, version, s, a);
      CallTheorems.AppendsOneAtMost(lib, s, a);
      if s'.cmds != s.cmds { MessagesAfterAppend(s, s', s'.cmds[|s.cmds|]); }
    }
  }

  /** It changes the RIs in the table accordingly. */
  lemma RisChangeBy(lib: Library, s: State, a: Action)
    requires Inv(s) && a != NextEvent(Disconnected)
    ensures
      var made, held := RequestMade(lib, s, a), Subs.Ris(s.subs.table);
      Subs.Ris(Step(lib, s, a).subs.table)
      == if made.None? then held
         else if made.value.kind.Subscribing? then held + {made.value.ri} else held - {made.value.ri}
  {
    InvAfterStep(lib, s, a);
    LogGrowsBy(lib, s, a);
    var made, log := RequestMade(lib, s, a), s.subs.emitted;
    if made.Some? {
      assert (log + [made.value])[..|log|] == log;
    }
  }

  // ------------------------------------------------------------- the broker

  /** What a broker that starts with nothing holds after reading the messages. */
  function BrokerHolds(messages: seq<Message>): set<Subs.WireKey> {
    if messages == [] then {}
    else
      var held, read := BrokerHolds(messages[..|messages| - 1]), Subs.ReadRequest(messages[|messages| - 1]);
      match read
      case None => held
      case Some((Subscribing, key)) => held + {key}
      case Some((Unsubscribing, key)) => held - {key}
  }

  function KeysOf(version: ApiVersion, ris: set<Ri>): set<Subs.WireKey> {
    set ri | ri in ris :: Subs.KeyOf(version, ri)
  }

  /** The broker at the other end holds exactly the subscriptions in the table, once all is sent. */
  ghost predicate BrokerMatches(version: ApiVersion, s: State) {
    BrokerHolds(SubscriptionMessages(s)) == KeysOf(version, Subs.Ris(s.subs.table))
  }

  /** What the requests of the log leave a broker with, which knows keys only. */
  function WireReplay(version: ApiVersion, log: seq<Subs.Emitted>): set<Subs.WireKey> {
    if log == [] then {}
    else
      var held, e := WireReplay(version, log[..|log| - 1]), log[|log| - 1];
      if e.kind.Subscribing? then held + {Subs.KeyOf(version, e.ri)} else held - {Subs.KeyOf(version, e.ri)}
  }

  lemma {:induction false} BrokerHoldsWireReplay(version: ApiVersion, messages: seq<Message>, log: seq<Subs.Emitted>)
    requires Tells(version, messages, log)
    ensures BrokerHolds(messages) == WireReplay(version, log)
  {
    if log != [] {
      BrokerHoldsWireReplay(version, messages[..|log| - 1], log[..|log| - 1]);
    }
  }

  /** Another RI in the set looks like `ri` on the wire. */
  ghost predicate Aliased(version: ApiVersion, held: set<Ri>, ri: Ri) {
    exists other :: other in held && other != ri && Subs.KeyOf(version, other) == Subs.KeyOf(version, ri)
  }

  lemma KeysAfterRemoval(version: ApiVersion, held: set<Ri>, ri: Ri)
    ensures KeysOf(version, held) - {Subs.KeyOf(version, ri)} == KeysOf(version, held - {ri})
       <==> !Aliased(version, held, ri)
  {
    var key := Subs.KeyOf(version, ri);
    if other :| other in held && other != ri && Subs.KeyOf(version, other) == key {
      assert other in held - {ri};
      assert key in KeysOf(version, held - {ri});
    } else {
      forall k | k in KeysOf(version, held) && k != key ensures k in KeysOf(version, held - {ri}) {
        var other :| other in held && Subs.KeyOf(version, other) == k;
        assert other in held - {ri};
      }
    }
  }

  /** One more request keeps broker and replay together unless it unsubscribes an RI that has an alias. */
  lemma WireReplayStep(version: ApiVersion, log: seq<Subs.Emitted>, e: Subs.Emitted)
    requires WireReplay(version, log) == KeysOf(version, Subs.Replay(log))
    ensures WireReplay(version, log + [e]) == KeysOf(version, Subs.Replay(log + [e]))
       <==> !(e.kind.Unsubscribing? && Aliased(version, Subs.Replay(log), e.ri))
  {
    assert (log + [e])[..|log|] == log;
    if e.kind.Subscribing? {
      var held := Subs.Replay(log);
      assert KeysOf(version, held + {e.ri}) == KeysOf(version, held) + {Subs.KeyOf(version, e.ri)};
    } else {
      KeysAfterRemoval(version, Subs.Replay(log), e.ri);
    }
  }

  lemma WireReplayAfterPrefix(version: ApiVersion, messages: seq<Message>, log: seq<Subs.Emitted>, n: nat)
    requires Tells(version, messages, log) && n < |log|
    requires BrokerHolds(messages[..n]) == KeysOf(version, Subs.Replay(log[..n]))
    ensures BrokerHolds(messages[..n + 1]) == KeysOf(version, Subs.Replay(log[..n + 1]))
       <==> !(log[n].kind.Unsubscribing? && Aliased(version, Subs.Replay(log[..n]), log[n].ri))
  {
    BrokerHoldsWireReplay(version, messages[..n], log[..n]);
    BrokerHoldsWireReplay(version, messages[..n + 1], log[..n + 1]);
    assert log[..n + 1] == log[..n] + [log[n]];
    WireReplayStep(version, log[..n], log[n]);
  }

  lemma {:induction false} WireReplayAt(version: ApiVersion, messages: seq<Message>, log: seq<Subs.Emitted>, n: nat)
    requires Tells(version, messages, log) && n <= |log|
    requires forall i :: 0 <= i < |log| ==>
               !(log[i].kind.Unsubscribing? && Aliased(version, Subs.Replay(log[..i]), log[i].ri))
    ensures BrokerHolds(messages[..n]) == KeysOf(version, Subs.Replay(log[..n]))
  {
    if n > 0 {
      WireReplayAt(version, messages, log, n - 1);
      WireReplayAfterPrefix(version, messages, log, n - 1);
    }
  }

  /** Along a log, broker and replay agree after every request exactly when none unsubscribes an RI with an alias. */
  lemma BrokerHoldsReplayExactly(version: ApiVersion, messages: seq<Message>, log: seq<Subs.Emitted>)
    requires Tells(version, messages, log)
    ensures (forall n :: 0 <= n <= |log| ==> BrokerHolds(messages[..n]) == KeysOf(version, Subs.Replay(log[..n])))
       <==> forall n :: 0 <= n < |log| ==>
              !(log[n].kind.Unsubscribing? && Aliased(version, Subs.Replay(log[..n]), log[n].ri))
  {
    if forall n :: 0 <= n <= |log| ==> BrokerHolds(messages[..n]) == KeysOf(version, Subs.Replay(log[..n])) {
      forall n | 0 <= n < |log|
        ensures !(log[n].kind.Unsubscribing? && Aliased(version, Subs.Replay(log[..n]), log[n].ri))
      {
        WireReplayAfterPrefix(version, messages, log, n);
      }
    }
    if forall n :: 0 <= n < |log| ==>
         !(log[n].kind.Unsubscribing? && Aliased(version, Subs.Replay(log[..n]), log[n].ri)) {
      forall n | 0 <= n <= |log| ensures BrokerHolds(messages[..n]) == KeysOf(version, Subs.Replay(log[..n])) {
        WireReplayAt(version, messages, log, n);
      }
    }
  }

  /** The step unsubscribes the last holder of an RI while the table holds another that looks like it on the wire. */
  ghost predicate UnsubscribesAlias(s: State, a: Action) {
    && Enabled(s, a) && a.NextCommand? && s.cmds[0].Unsubscribe? && s.version.Some?
    && var orphaned := Subs.Orphaned(s.subs.table, s.cmds[0].sub);
       orphaned.Some? && Aliased(s.version.value, Subs.Ris(s.subs.table), orphaned.value)
  }

  lemma AliasIsUnsubscribed(lib: Library, version: ApiVersion, s: State, a: Action)
    requires s.version.None? || s.version == Some(version)
    ensures UnsubscribesAlias(s, a)
       <==> var made := RequestMade(lib, s, a);
            made.Some? && made.value.kind.Unsubscribing? && Aliased(version, Subs.Ris(s.subs.table), made.value.ri)
  {
  }

  lemma BrokerReadsOneMore(messages: seq<Message>, ri: Ri, kind: Subs.RequestKind, version: ApiVersion, id: int)
    ensures
      var held, key := BrokerHolds(messages), Subs.KeyOf(version, ri);
      BrokerHolds(messages + [Subs.CreateSubscriptionRequest(ri, kind, version, id)])
      == if kind.Subscribing? then held + {key} else held - {key}
  {
    var m := Subs.CreateSubscriptionRequest(ri, kind, version, id);
    assert (messages + [m])[..|messages|] == messages;
    Subs.RequestReadsBack(ri, kind, version, id);
  }

  lemma KeysAfterRequest(version: ApiVersion, held: set<Ri>, ri: Ri)
    ensures KeysOf(version, held + {ri}) == KeysOf(version, held) + {Subs.KeyOf(version, ri)}
  {
  }

  /** On a connection, a step from where broker and table match keeps it so unless it unsubscribes an alias. */
  lemma MatchesAfterStep(lib: Library, version: ApiVersion, s: State, a: Action)
    requires OnConnection(version, s) && SameConnection(a, version) && BrokerMatches(version, s)
    ensures BrokerMatches(version, Step(lib, s, a)) <==> !UnsubscribesAlias(s, a)
  {
    MessagesGrowBy(lib, version, s, a);
    RisChangeBy(lib, s, a);
    AliasIsUnsubscribed(lib, version, s, a);
    var made, held := RequestMade(lib, s, a), Subs.Ris(s.subs.table);
    if made.Some? {
      var ri := made.value.ri;
      assert s.version == Some(version);
      BrokerReadsOneMore(SubscriptionMessages(s), ri, made.value.kind, version, s.nextId);
      KeysAfterRequest(version, held, ri);
      KeysAfterRemoval(version, held, ri);
    } else {
      assert SubscriptionMessages(s) + [] == SubscriptionMessages(s);
    }
  }

  lemma MatchesAfterPrefix(lib: Library, version: ApiVersion, s: State, more: seq<Action>, j: nat)
    requires OnConnection(version, s) && AllSameConnection(more, version)
    requires j < |more| && BrokerMatches(version, AfterFrom(lib, s, more[..j]))
    ensures BrokerMatches(version, AfterFrom(lib, s, more[..j + 1]))
       <==> !UnsubscribesAlias(AfterFrom(lib, s, more[..j]), more[j])
  {
    PrefixStepFrom(lib, s, more, j);
    OnConnectionThroughout(lib, version, s, more[..j]);
    MatchesAfterStep(lib, version, AfterFrom(lib, s, more[..j]), more[j]);
  }

  ghost predicate NoAliasUnsubscribed(lib: Library, s: State, more: seq<Action>) {
    forall i :: 0 <= i < |more| ==> !UnsubscribesAlias(AfterFrom(lib, s, more[..i]), more[i])
  }

  lemma {:induction false} MatchesAt(lib: Library, version: ApiVersion, s: State, more: seq<Action>, j: nat)
    requires OnConnection(version, s) && BrokerMatches(version, s) && j <= |more|
    requires AllSameConnection(more, version) && NoAliasUnsubscribed(lib, s, more)
    ensures BrokerMatches(version, AfterFrom(lib, s, more[..j]))
    decreases j
  {
    if j > 0 {
      MatchesAt(lib, version, s, more, j - 1);
      assert !UnsubscribesAlias(AfterFrom(lib, s, more[..j - 1]), more[j - 1]);
      MatchesAfterPrefix(lib, version, s, more, j - 1);
    }
  }

  ghost predicate AlwaysMatches(lib: Library, version: ApiVersion, s: State, more: seq<Action>) {
    forall j :: 0 <= j <= |more| ==> BrokerMatches(version, AfterFrom(lib, s, more[..j]))
  }

  lemma MatchesExactly(lib: Library, version: ApiVersion, s: State, more: seq<Action>)
    requires OnConnection(version, s) && AllSameConnection(more, version)
    ensures AlwaysMatches(lib, version, s, more) <==> BrokerMatches(version, s) && NoAliasUnsubscribed(lib, s, more)
  {
    if AlwaysMatches(lib, version, s, more) {
      assert more[..0] == [] && BrokerMatches(version, AfterFrom(lib, s, more[..0]));
      forall j | 0 <= j < |more| ensures !UnsubscribesAlias(AfterFrom(lib, s, more[..j]), more[j]) {
        MatchesAfterPrefix(lib, version, s, more, j);
      }
    }
    if BrokerMatches(version, s) && NoAliasUnsubscribed(lib, s, more) {
      forall j | 0 <= j <= |more| ensures BrokerMatches(version, AfterFrom(lib, s, more[..j])) {
        MatchesAt(lib, version, s, more, j);
      }
    }
  }

  lemma RunsComposeThroughout(lib: Library, run: seq<Action>, more: seq<Action>)
    ensures forall j :: 0 <= j <= |more| ==> AfterFrom(lib, After(lib, run), more[..j]) == After(lib, run + more[..j])
  {
    forall j | 0 <= j <= |more| ensures AfterFrom(lib, After(lib, run), more[..j]) == After(lib, run + more[..j]) {
      RunsCompose(lib, run, more[..j]);
    }
  }

  /**
   * From any state of a connection on, under one API version: in every state what was sent over it plus what is
   * still queued makes a broker that starts with nothing hold exactly the subscriptions in the table, if and only
   * if that is so in the first state and no step unsubscribes an RI while the table holds an alias of it.
   */
  lemma BrokerHoldsTheTableExactly(lib: Library, version: ApiVersion, run: seq<Action>, more: seq<Action>)
    requires After(lib, run).conn.Some? && (After(lib, run).version.None? || After(lib, run).version == Some(version))
    requires AllSameConnection(more, version)
    ensures (forall j :: 0 <= j <= |more| ==> BrokerMatches(version, After(lib, run + more[..j])))
       <==> BrokerMatches(version, After(lib, run))
            && forall j :: 0 <= j < |more| ==> !UnsubscribesAlias(After(lib, run + more[..j]), more[j])
  {
    InvAlways(lib, run);
    MatchesExactly(lib, version, After(lib, run), more);
    RunsComposeThroughout(lib, run, more);
  }

  /** What is queued when a connection is taken makes up for what the table holds. */
  ghost predicate QueueTellsTable(version: ApiVersion, s: State) {
    BrokerHolds(Queued(s.cmds, FromSubscription)) == KeysOf(version, Subs.Ris(s.subs.table))
  }

  /** Nothing has been sent over a connection just taken. */
  lemma MatchesWhenTaken(lib: Library, version: ApiVersion, s: State, conn: nat)
    ensures BrokerMatches(version, HandleEvent(lib, s, Connected(conn))) <==> QueueTellsTable(version, s)
  {
    var s' := HandleEvent(lib, s, Connected(conn));
    assert HandedOver(s') == [] && SubscriptionMessages(s') == [] + Queued(s.cmds, FromSubscription);
    assert [] + Queued(s.cmds, FromSubscription) == Queued(s.cmds, FromSubscription);
  }

  /**
   * So over a whole connection, whatever was left from before: broker and table match in every state if and only if
   * the subscription messages queued when Connected is taken make up exactly the table of that moment, and no step
   * unsubscribes an alias.
   */
  lemma ConnectionMatchesExactly(lib: Library, version: ApiVersion, run: seq<Action>, conn: nat, more: seq<Action>)
    requires After(lib, run).status.Running?
    requires After(lib, run).version.None? || After(lib, run).version == Some(version)
    requires AllSameConnection(more, version)
    ensures
      var taken := run + [NextEvent(Connected(conn))];
      (forall j :: 0 <= j <= |more| ==> BrokerMatches(version, After(lib, taken + more[..j])))
      <==> QueueTellsTable(version, After(lib, run))
           && forall j :: 0 <= j < |more| ==> !UnsubscribesAlias(After(lib, taken + more[..j]), more[j])
  {
    OneMoreAction(lib, run, NextEvent(Connected(conn)));
    MatchesWhenTaken(lib, version, After(lib, run), conn);
    BrokerHoldsTheTableExactly(lib, version, run + [NextEvent(Connected(conn))], more);
  }

  // ------------------------------------------ a subscription made while disconnected

  /** The client is disconnected with the version known, and one subscription is queued. */
  predicate AskedOffline(s: State, ri: Ri) {
    && s.status.Running? && s.conn.None? && s.version == Some(V3) && s.cmds == [Subscribe(ri, 0)]
    && s.subs.table == [] && s.calls == Calls.NO_CALLS && s.subs.requests == map[] && s.subs.logs == map[]
  }

  lemma SubscribedOffline(lib: Library, s: State, ri: Ri, conn: nat)
    requires AskedOffline(s, ri) && Subs.AcceptedRi(lib, V3, ri) == Some(ri)
    ensures var dropped := Step(lib, Step(lib, s, NextCommand), NextCommand);
            LostOffline(Step(lib, dropped, NextEvent(Connected(conn))), ri, conn, s.nextId)
  {
    var s1 := Step(lib, s, NextCommand);
    assert |s1.cmds| == 1 && s1.cmds[0].SendMessage?;
    var s2 := Step(lib, s1, NextCommand);
    assert s2.cmds == [] && s2.subs == s1.subs;
  }

  /** Connected, with nothing queued, nothing sent over the connection, and a subscription nobody was told of. */
  predicate LostOffline(s: State, ri: Ri, conn: nat, request: int) {
    && s.status.Running? && s.conn == Some(conn) && s.cmds == [] && HandedOver(s) == []
    && s.subs.table == [Subs.Entry(false, 0, ri)] && s.subs.requests == map[request := 0] && Log(s.subs.logs, 0) == []
  }

  lemma LostOfflineDiffers(s: State, ri: Ri, conn: nat, request: int)
    requires LostOffline(s, ri, conn, request)
    ensures !BrokerMatches(V3, s)
  {
    assert s.subs.table[0].ri in Subs.Ris(s.subs.table);
    assert Subs.KeyOf(V3, ri) in KeysOf(V3, Subs.Ris(s.subs.table));
    assert SubscriptionMessages(s) == [];
  }

  function OfflineRun(ri: Ri): seq<Action> {
    [NextEvent(Connected(0))] + [VersionResult(Some(V3))] + [NextEvent(Disconnected)] + [DoSubscribe(ri)]
  }

  lemma OfflineRunAsks(lib: Library, ri: Ri)
    ensures AskedOffline(After(lib, OfflineRun(ri)), ri) && After(lib, OfflineRun(ri)).nextId == 1
  {
    var run0 := [NextEvent(Connected(0))];
    OneMoreAction(lib, [], NextEvent(Connected(0)));
    assert [] + [NextEvent(Connected(0))] == run0;
    OneMoreAction(lib, run0, VersionResult(Some(V3)));
    OneMoreAction(lib, run0 + [VersionResult(Some(V3))], NextEvent(Disconnected));
    OneMoreAction(lib, run0 + [VersionResult(Some(V3))] + [NextEvent(Disconnected)], DoSubscribe(ri));
  }

  /**
   * A subscription handled while disconnected is recorded and its request dropped. After the reconnect the queue is
   * empty, nothing has been sent, and the table holds a subscription the broker was never told of.
   */
  lemma OfflineSubscriptionIsLost(lib: Library, ri: Ri)
    requires Subs.AcceptedRi(lib, V3, ri) == Some(ri)
    ensures
      var s := After(lib, OfflineRun(ri) + [NextCommand] + [NextCommand] + [NextEvent(Connected(1))]);
      && s.status.Running? && s.conn == Some(1) && s.cmds == [] && HandedOver(s) == []
      && s.subs.table == [Subs.Entry(false, 0, ri)] && s.subs.requests == map[1 := 0]
      && !BrokerMatches(V3, s)
  {
    var run := OfflineRun(ri);
    OfflineRunAsks(lib, ri);
    OneMoreAction(lib, run, NextCommand);
    OneMoreAction(lib, run + [NextCommand], NextCommand);
    OneMoreAction(lib, run + [NextCommand] + [NextCommand], NextEvent(Connected(1)));
    SubscribedOffline(lib, After(lib, run), ri, 1);
    LostOfflineDiffers(After(lib, run + [NextCommand] + [NextCommand] + [NextEvent(Connected(1))]), ri, 1, 1);
  }

  // ------------------------------------------------------ when there is no alias

  /** An RI as the table keeps it, other than one to the signal named "" under SHV 2. */
  predicate Unambiguous(version: ApiVersion, ri: Ri) {
    version.V2? ==> ri.meth == "*" && ri.signal.Some? && ri.signal != Some("")
  }

  lemma UnambiguousKeysDiffer(version: ApiVersion, ri: Ri, ri': Ri)
    requires Unambiguous(version, ri) && Unambiguous(version, ri')
    requires Subs.KeyOf(version, ri) == Subs.KeyOf(version, ri')
    ensures ri == ri'
  {
  }

  ghost predicate AllUnambiguous(version: ApiVersion, s: State) {
    forall ri :: ri in Subs.Ris(s.subs.table) ==> Unambiguous(version, ri)
  }

  /** The step handles a subscription to the signal named "". */
  predicate AsksForEmptySignal(s: State, a: Action) {
    a.NextCommand? && s.cmds != [] && s.cmds[0].Subscribe? && s.cmds[0].ri.signal == Some("")
  }

  ghost predicate NoEmptySignalAsked(lib: Library, s: State, more: seq<Action>) {
    forall i :: 0 <= i < |more| ==> !AsksForEmptySignal(AfterFrom(lib, s, more[..i]), more[i])
  }

  lemma RequestMadeIsUnambiguous(lib: Library, version: ApiVersion, s: State, a: Action)
    requires s.version.None? || s.version == Some(version)
    requires version.V2? ==> !AsksForEmptySignal(s, a)
    ensures var made := RequestMade(lib, s, a);
            made.Some? && made.value.kind.Subscribing? ==> Unambiguous(version, made.value.ri)
  {
  }

  lemma AllUnambiguousAfterStep(lib: Library, version: ApiVersion, s: State, a: Action)
    requires Inv(s) && AllUnambiguous(version, s) && (s.version.None? || s.version == Some(version))
    requires a != NextEvent(Disconnected) && (version.V2? ==> !AsksForEmptySignal(s, a))
    ensures AllUnambiguous(version, Step(lib, s, a))
  {
    InvAfterStep(lib, s, a);
    LogGrowsBy(lib, s, a);
    RequestMadeIsUnambiguous(lib, version, s, a);
    var made, log := RequestMade(lib, s, a), s.subs.emitted;
    if made.Some? {
      assert (log + [made.value])[..|log|] == log;
    }
  }

  lemma NoAliasAmong(version: ApiVersion, held: set<Ri>, ri: Ri)
    requires ri in held && forall r :: r in held ==> Unambiguous(version, r)
    ensures !Aliased(version, held, ri)
  {
    forall other | other in held && Subs.KeyOf(version, other) == Subs.KeyOf(version, ri) ensures other == ri {
      UnambiguousKeysDiffer(version, other, ri);
    }
  }

  lemma UnambiguousHasNoAlias(version: ApiVersion, s: State, a: Action)
    requires AllUnambiguous(version, s) && (s.version.None? || s.version == Some(version))
    ensures !UnsubscribesAlias(s, a)
  {
    if a.NextCommand? && s.cmds != [] && s.cmds[0].Unsubscribe? {
      var orphaned := Subs.Orphaned(s.subs.table, s.cmds[0].sub);
      if orphaned.Some? {
        assert orphaned.value in Subs.Ris(s.subs.table);
        NoAliasAmong(version, Subs.Ris(s.subs.table), orphaned.value);
      }
    }
  }

  lemma {:induction false} UnambiguousAt(lib: Library, version: ApiVersion, s: State, more: seq<Action>, j: nat)
    requires OnConnection(version, s) && AllUnambiguous(version, s) && j <= |more|
    requires AllSameConnection(more, version)
    requires version.V2? ==> NoEmptySignalAsked(lib, s, more)
    ensures AllUnambiguous(version, AfterFrom(lib, s, more[..j]))
    decreases j
  {
    if j > 0 {
      UnambiguousAt(lib, version, s, more, j - 1);
      OnConnectionThroughout(lib, version, s, more[..j - 1]);
      PrefixStepFrom(lib, s, more, j - 1);
      AllUnambiguousAfterStep(lib, version, AfterFrom(lib, s, more[..j - 1]), more[j - 1]);
    }
  }

  /**
   * No alias can be unsubscribed under SHV 3, nor under SHV 2 if the table holds no subscription to the signal named
   * "" and none is handled. Then broker and table match throughout if they match at first.
   */
  lemma BrokerHoldsTheTable(lib: Library, version: ApiVersion, run: seq<Action>, more: seq<Action>)
    requires After(lib, run).conn.Some? && (After(lib, run).version.None? || After(lib, run).version == Some(version))
    requires AllSameConnection(more, version)
    requires AllUnambiguous(version, After(lib, run))
    requires version.V2? ==> forall j :: 0 <= j < |more| ==> !AsksForEmptySignal(After(lib, run + more[..j]), more[j])
    ensures (forall j :: 0 <= j <= |more| ==> BrokerMatches(version, After(lib, run + more[..j])))
       <==> BrokerMatches(version, After(lib, run))
  {
    forall j | 0 <= j < |more| ensures !UnsubscribesAlias(After(lib, run + more[..j]), more[j]) {
      NoAliasAt(lib, version, run, more, j);
    }
    BrokerHoldsTheTableExactly(lib, version, run, more);
  }

  lemma NoAliasAt(lib: Library, version: ApiVersion, run: seq<Action>, more: seq<Action>, j: nat)
    requires After(lib, run).conn.Some? && (After(lib, run).version.None? || After(lib, run).version == Some(version))
    requires AllSameConnection(more, version) && AllUnambiguous(version, After(lib, run)) && j < |more|
    requires version.V2? ==> forall i :: 0 <= i < |more| ==> !AsksForEmptySignal(After(lib, run + more[..i]), more[i])
    ensures !UnsubscribesAlias(After(lib, run + more[..j]), more[j])
  {
    InvAlways(lib, run);
    RunsComposeThroughout(lib, run, more);
    UnambiguousAt(lib, version, After(lib, run), more, j);
    OnConnectionThroughout(lib, version, After(lib, run), more[..j]);
    RunsCompose(lib, run, more[..j]);
    UnambiguousHasNoAlias(version, After(lib, run + more[..j]), more[j]);
  }

  /** A connection is in use, the table is empty, and no subscription messages are left over. */
  ghost predicate StartsClean(version: ApiVersion, s: State) {
    && s.conn.Some? && (s.version.None? || s.version == Some(version))
    && s.subs.table == [] && SubscriptionMessages(s) == []
  }

  /** In particular from a clean start they match throughout. */
  lemma CleanConnectionMatches(lib: Library, version: ApiVersion, run: seq<Action>, more: seq<Action>)
    requires StartsClean(version, After(lib, run)) && AllSameConnection(more, version)
    requires version.V2? ==> forall j :: 0 <= j < |more| ==> !AsksForEmptySignal(After(lib, run + more[..j]), more[j])
    ensures forall j :: 0 <= j <= |more| ==> BrokerMatches(version, After(lib, run + more[..j]))
  {
    BrokerHoldsTheTable(lib, version, run, more);
  }

  // --------------------------------------------------------- when there is one

  /** A subscription to all signals of a path, one to its signal named "", and the end of the second. */
  predicate BothQueued(s: State, all: Ri, empty: Ri) {
    && s.status.Running? && s.version == Some(V2) && s.subs.table == []
    && s.cmds == [Subscribe(all, 0)] + [Subscribe(empty, 1)] + [Unsubscribe(1)]
  }

  lemma AliasIsOrphaned(all: Ri, empty: Ri)
    requires all == Ri(empty.path, "*", Some("*")) && empty.signal == Some("")
    ensures
      var table := [Subs.Entry(false, 0, all)] + [Subs.Entry(false, 1, empty)];
      Subs.Orphaned(table, 1) == Some(empty) && Aliased(V2, Subs.Ris(table), empty)
  {
    var table := [Subs.Entry(false, 0, all)] + [Subs.Entry(false, 1, empty)];
    assert Subs.Position(table[1..], 1) == 0;
    assert Subs.Position(table, 1) == 1;
    assert table[..1] == [Subs.Entry(false, 0, all)];
    assert table[0].ri in Subs.Ris(table);
  }

  /** A connection, the version, two subscriptions that look alike, the end of the second, and both handled. */
  function AliasRun(path: string): seq<Action> {
    [VersionResult(Some(V2))] + [DoSubscribe(Ri(path, "*", Some("*")))] + [DoSubscribe(Ri(path, "*", Some("")))]
    + [DropSubscriber(1)] + [NextCommand] + [NextCommand]
  }

  /** In step with the broker, on a connection under SHV 2. */
  ghost predicate InStep(s: State) { OnConnection(V2, s) && BrokerMatches(V2, s) }

  lemma StaysInStep(lib: Library, s: State, a: Action)
    requires InStep(s) && SameConnection(a, V2) && (a.NextCommand? && s.cmds != [] ==> !s.cmds[0].Unsubscribe?)
    ensures InStep(Step(lib, s, a))
  {
    StillOnConnection(lib, V2, s, a);
    MatchesAfterStep(lib, V2, s, a);
  }

  lemma BothHandled(lib: Library, s: State, all: Ri, empty: Ri)
    requires BothQueued(s, all, empty) && InStep(s)
    requires Subs.AcceptedRi(lib, V2, all) == Some(all) && Subs.AcceptedRi(lib, V2, empty) == Some(empty)
    requires all == Ri(empty.path, "*", Some("*")) && empty.signal == Some("")
    ensures var s' := Step(lib, Step(lib, s, NextCommand), NextCommand);
            UnsubscribesAlias(s', NextCommand) && InStep(s')
  {
    var s1 := Step(lib, s, NextCommand);
    assert s1.subs.table == [Subs.Entry(false, 0, all)];
    assert s1.cmds[0] == Subscribe(empty, 1) && s1.cmds[1] == Unsubscribe(1);
    var s2 := Step(lib, s1, NextCommand);
    assert s2.subs.table == [Subs.Entry(false, 0, all)] + [Subs.Entry(false, 1, empty)];
    assert s2.cmds[0] == Unsubscribe(1);
    AliasIsOrphaned(all, empty);
    StaysInStep(lib, s, NextCommand);
    StaysInStep(lib, s1, NextCommand);
  }

  /** Just connected, with the version check in flight and nothing asked for yet. */
  predicate JustConnected(s: State) {
    && s.status.Running? && s.checks > 0
    && s.cmds == [] && s.subs.table == [] && s.callers.nextSub == 0 && s.callers.alive == {}
  }

  lemma BothQueuedFrom(lib: Library, s: State, all: Ri, empty: Ri)
    requires JustConnected(s)
    ensures
      var known := Step(lib, s, VersionResult(Some(V2)));
      var both := Step(lib, Step(lib, known, DoSubscribe(all)), DoSubscribe(empty));
      BothQueued(Step(lib, both, DropSubscriber(1)), all, empty)
  {
    var s1 := Step(lib, Step(lib, s, VersionResult(Some(V2))), DoSubscribe(all));
    assert s1.cmds == [Subscribe(all, 0)];
    var s2 := Step(lib, s1, DoSubscribe(empty));
    assert s2.cmds == [Subscribe(all, 0)] + [Subscribe(empty, 1)] && s2.callers.alive == {0, 1};
  }

  lemma InStepFrom(lib: Library, s: State, all: Ri, empty: Ri)
    requires InStep(s)
    ensures
      var known := Step(lib, s, VersionResult(Some(V2)));
      var both := Step(lib, Step(lib, known, DoSubscribe(all)), DoSubscribe(empty));
      InStep(Step(lib, both, DropSubscriber(1)))
  {
    var s1 := Step(lib, s, VersionResult(Some(V2)));
    StaysInStep(lib, s, VersionResult(Some(V2)));
    StaysInStep(lib, s1, DoSubscribe(all));
    StaysInStep(lib, Step(lib, s1, DoSubscribe(all)), DoSubscribe(empty));
    StaysInStep(lib, Step(lib, Step(lib, s1, DoSubscribe(all)), DoSubscribe(empty)), DropSubscriber(1));
  }

  lemma AliasRunSteps(lib: Library, s: State, path: string)
    ensures
      var all, empty := Ri(path, "*", Some("*")), Ri(path, "*", Some(""));
      var known := Step(lib, s, VersionResult(Some(V2)));
      var both := Step(lib, Step(lib, known, DoSubscribe(all)), DoSubscribe(empty));
      AfterFrom(lib, s, AliasRun(path))
      == Step(lib, Step(lib, Step(lib, both, DropSubscriber(1)), NextCommand), NextCommand)
  {
    var all, empty := Ri(path, "*", Some("*")), Ri(path, "*", Some(""));
    var more1 := [VersionResult(Some(V2))];
    var more2 := more1 + [DoSubscribe(all)];
    var more3 := more2 + [DoSubscribe(empty)];
    var more4 := more3 + [DropSubscriber(1)];
    OneMoreFrom(lib, s, [], VersionResult(Some(V2)));
    assert [] + [VersionResult(Some(V2))] == more1;
    OneMoreFrom(lib, s, more1, DoSubscribe(all));
    OneMoreFrom(lib, s, more2, DoSubscribe(empty));
    OneMoreFrom(lib, s, more3, DropSubscriber(1));
    OneMoreFrom(lib, s, more4, NextCommand);
    OneMoreFrom(lib, s, more4 + [NextCommand], NextCommand);
  }

  lemma AliasRunUnsubscribes(lib: Library, s: State, path: string)
    requires JustConnected(s) && InStep(s)
    requires Subs.AcceptedRi(lib, V2, Ri(path, "*", Some("*"))).Some?
    requires Subs.AcceptedRi(lib, V2, Ri(path, "*", Some(""))).Some?
    ensures InStep(AfterFrom(lib, s, AliasRun(path)))
    ensures UnsubscribesAlias(AfterFrom(lib, s, AliasRun(path)), NextCommand)
  {
    var all, empty := Ri(path, "*", Some("*")), Ri(path, "*", Some(""));
    AliasRunSteps(lib, s, path);
    BothQueuedFrom(lib, s, all, empty);
    InStepFrom(lib, s, all, empty);
    var known := Step(lib, s, VersionResult(Some(V2)));
    var both := Step(lib, Step(lib, known, DoSubscribe(all)), DoSubscribe(empty));
    BothHandled(lib, Step(lib, both, DropSubscriber(1)), all, empty);
  }

  /**
   * If the library accepts the signal named "", then within one connection that starts clean the last step of this
   * run unsubscribes an alias, and with it broker and table, which matched before, part.
   */
  lemma EmptySignalConfusesBroker(lib: Library, path: string)
    requires Subs.AcceptedRi(lib, V2, Ri(path, "*", Some("*"))).Some?
    requires Subs.AcceptedRi(lib, V2, Ri(path, "*", Some(""))).Some?
    ensures
      var start, more := [NextEvent(Connected(0))], AliasRun(path);
      && StartsClean(V2, After(lib, start)) && AllSameConnection(more + [NextCommand], V2)
      && UnsubscribesAlias(After(lib, start + more), NextCommand)
      && BrokerMatches(V2, After(lib, start + more))
      && !BrokerMatches(V2, After(lib, start + more + [NextCommand]))
  {
    FirstConnection(lib);
    AliasRunUnsubscribes(lib, After(lib, [NextEvent(Connected(0))]), path);
    RunsCompose(lib, [NextEvent(Connected(0))], AliasRun(path));
    AliasPartsThem(lib, [NextEvent(Connected(0))] + AliasRun(path));
    AliasRunIsOneConnection(path);
  }

  lemma AliasPartsThem(lib: Library, run: seq<Action>)
    requires InStep(After(lib, run)) && UnsubscribesAlias(After(lib, run), NextCommand)
    ensures BrokerMatches(V2, After(lib, run)) && !BrokerMatches(V2, After(lib, run + [NextCommand]))
  {
    OneMoreAction(lib, run, NextCommand);
    MatchesAfterStep(lib, V2, After(lib, run), NextCommand);
  }

  lemma AliasRunIsOneConnection(path: string)
    ensures AllSameConnection(AliasRun(path) + [NextCommand], V2)
  {
  }

  lemma FirstConnection(lib: Library)
    ensures var s := After(lib, [NextEvent(Connected(0))]); StartsClean(V2, s) && JustConnected(s) && InStep(s)
  {
    var start := [NextEvent(Connected(0))];
    OneMoreAction(lib, [], NextEvent(Connected(0)));
    assert [] + [NextEvent(Connected(0))] == start;
    InvAlways(lib, start);
  }
}
