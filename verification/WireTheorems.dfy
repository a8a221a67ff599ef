/** From the client's command queue to what the connection task writes. */
module WireTheorems {
  import opened Basics
  import opened Wire
  import opened Client
  import opened Connection
  import opened ClientSystem
  import ClientSafety
  import Subs = Subscriptions
  import BrokerTheorems
  import CallTheorems
  import HistoryTheorems
  import QueueTheorems

  /** What the task has written to one connection on the client's behalf. */
  function Relayed(written: seq<Written>, conn: nat): seq<Message> {
    if written == [] then []
    else
      var last := written[|written| - 1];
      Relayed(written[..|written| - 1], conn) + (if last.relayed && last.conn == conn then [last.message] else [])
  }

  lemma RelayedAppend(written: seq<Written>, w: Written, conn: nat)
    ensures Relayed(written + [w], conn)
         == if w.relayed && w.conn == conn then Relayed(written, conn) + [w.message] else Relayed(written, conn)
  {
    assert (written + [w])[..|written|] == written;
  }

  lemma {:induction false} NothingRelayedYet(written: seq<Written>, conn: nat)
    requires forall i :: 0 <= i < |written| ==> written[i].conn != conn
    ensures Relayed(written, conn) == []
  {
    if written != [] {
      NothingRelayedYet(written[..|written| - 1], conn);
    }
  }

  function MessagesOf(sent: seq<Sent>): seq<Message> {
    seq(|sent|, i requires 0 <= i < |sent| => sent[i].message)
  }

  // ------------------------------------------------ connections are numbered

  /** Connections are numbered in the order they are made, and the client has sent nothing over one to come. */
  ghost predicate Numbered(x: System) {
    && (x.task.phase.Online? ==> x.task.phase.conn < x.task.nextConn)
    && (forall i :: 0 <= i < |x.task.written| ==> x.task.written[i].conn < x.task.nextConn)
    && (x.client.conn.Some? ==> x.client.conn.value < x.task.nextConn && Connected(x.client.conn.value) !in x.events)
    && (forall i :: 0 <= i < |x.client.sent| && x.client.sent[i].over.Some? ==>
          x.client.sent[i].over.value < x.task.nextConn && Connected(x.client.sent[i].over.value) !in x.events)
    && (forall i :: 0 <= i < |x.events| && x.events[i].Connected? ==> x.events[i].conn < x.task.nextConn)
    && (forall i, j :: 0 <= i < j < |x.events| && x.events[i].Connected? ==> x.events[i] != x.events[j])
  }

  /** The messages after the mark are those over the connection in use. */
  ghost predicate Marked(s: State) {
    && s.mark <= |s.sent|
    && (s.conn.Some? ==> forall i :: 0 <= i < |s.sent| ==> (s.sent[i].over == s.conn <==> s.mark <= i))
  }

  /** What is written to each connection is the first part of what was sent over it; `read` counts the current one. */
  ghost predicate WrittenSoFar(x: System) {
    && (forall k: nat :: Relayed(x.task.written, k) <= MessagesOf(QueueTheorems.SentOver(x.client.sent, k)))
    && (x.task.phase.Online? ==> |Relayed(x.task.written, x.task.phase.conn)| == x.task.phase.read)
  }

  ghost predicate Faithful(x: System) { Numbered(x) && Marked(x.client) && WrittenSoFar(x) }

  lemma {:induction false} SentOverFrom(sent: seq<Sent>, mark: nat, conn: nat)
    requires mark <= |sent| && forall i :: 0 <= i < |sent| ==> (sent[i].over == Some(conn) <==> mark <= i)
    ensures QueueTheorems.SentOver(sent, conn) == sent[mark..]
    decreases |sent|
  {
    if sent != [] {
      var init := sent[..|sent| - 1];
      if mark == |sent| {
        SentOverFrom(init, mark - 1, conn);
      } else {
        SentOverFrom(init, mark, conn);
        assert sent[mark..] == init[mark..] + [sent[|sent| - 1]];
      }
    }
  }

  // -------------------------------------------------------- the client's moves

  /** The client adds at most one record, over the connection it uses. */
  ghost predicate SendsOneAtMost(s: State, s': State) {
    s'.sent == s.sent || (|s'.sent| == |s.sent| + 1 && s.sent <= s'.sent && s'.sent[|s.sent|].over == s.conn)
  }

  lemma ClientSends(lib: Library, s: State, a: Action)
    requires !a.NextEvent?
    ensures
      var s' := Step(lib, s, a);
      s'.conn == s.conn && s'.mark == s.mark && SendsOneAtMost(s, s')
  {
  }

  lemma SentOverGrows(s: State, s': State, k: nat)
    requires SendsOneAtMost(s, s')
    ensures MessagesOf(QueueTheorems.SentOver(s.sent, k)) <= MessagesOf(QueueTheorems.SentOver(s'.sent, k))
  {
    if s'.sent != s.sent {
      assert s'.sent == s.sent + [s'.sent[|s.sent|]];
      QueueTheorems.SentOverAppend(s.sent, s'.sent[|s.sent|], k);
    }
  }

  lemma FaithfulAfterClient(lib: Library, x: System, a: Action)
    requires Faithful(x) && !a.NextEvent?
    ensures Faithful(x.(client := Step(lib, x.client, a)))
  {
    var s' := Step(lib, x.client, a);
    ClientSends(lib, x.client, a);
    forall k: nat ensures Relayed(x.task.written, k) <= MessagesOf(QueueTheorems.SentOver(s'.sent, k)) {
      SentOverGrows(x.client, s', k);
    }
  }

  lemma FaithfulAfterTakesEvent(lib: Library, x: System)
    requires Faithful(x) && CanMove(x, ClientTakesEvent)
    ensures Faithful(MoveOn(lib, x, ClientTakesEvent))
  {
    var e, x' := x.events[0], MoveOn(lib, x, ClientTakesEvent);
    EventFacts(lib, x.client, e);
    assert x'.client.sent == x.client.sent;
    assert forall c :: c in x'.events ==> c in x.events;
    assert forall i :: 0 <= i < |x'.events| ==> x'.events[i] == x.events[i + 1];
    if e.Connected? {
      assert x'.client.conn == Some(e.conn) && e !in x'.events;
      assert e in x.events;
    } else {
      assert x'.client.conn == x.client.conn || x'.client.conn.None?;
    }
  }

  // ---------------------------------------------------------- the task's moves

  lemma NumberedAfterServe(lib: Library, x: System, input: Input)
    requires Numbered(x) && CanServe(x, input)
    ensures Numbered(MoveOn(lib, x, TaskDoes(input)))
  {
    ServeFollows(x.task, input);
    var x' := MoveOn(lib, x, TaskDoes(input));
    assert |x'.events| <= |x.events| + 1 && x.events <= x'.events;
    assert x'.client == x.client && x.task.nextConn <= x'.task.nextConn;
    assert forall i :: 0 <= i < |x.events| ==> x'.events[i] == x.events[i];
    if |x'.events| > |x.events| {
      assert x'.events == x.events + Serve(x.task, input).1;
      assert x'.events[|x.events|].Connected? ==> x'.events[|x.events|] == Connected(x.task.nextConn);
    }
  }

  /** What is relayed to one connection, and the reading position if it is the one being served. */
  ghost predicate RelayedWell(s: State, t: TaskState, k: nat) {
    && Relayed(t.written, k) <= MessagesOf(QueueTheorems.SentOver(s.sent, k))
    && (t.phase.Online? && t.phase.conn == k ==> |Relayed(t.written, k)| == t.phase.read)
  }

  lemma OneMoreRelayed(relayed: seq<Message>, over: seq<Sent>, m: Message)
    requires relayed <= MessagesOf(over) && |relayed| < |over| && over[|relayed|].message == m
    ensures relayed + [m] <= MessagesOf(over)
  {
  }

  lemma RelayedAfterCommand(x: System, message: Message, k: nat)
    requires Marked(x.client) && RelayedWell(x.client, x.task, k) && CanServe(x, CommandArrives(message, true))
    ensures RelayedWell(x.client, Serve(x.task, CommandArrives(message, true)).0, k)
  {
    RelayedAppend(x.task.written, Written(message, x.task.phase.conn, true), k);
    if k == x.task.phase.conn {
      SentOverFrom(x.client.sent, x.client.mark, k);
      assert HandedOver(x.client) == QueueTheorems.SentOver(x.client.sent, k);
      OneMoreRelayed(Relayed(x.task.written, k), HandedOver(x.client), message);
    }
  }

  lemma RelayedAfterOther(x: System, input: Input, k: nat)
    requires Numbered(x) && RelayedWell(x.client, x.task, k) && CanServe(x, input)
    requires input.CommandArrives? ==> !input.writerUp
    ensures RelayedWell(x.client, Serve(x.task, input).0, k)
  {
    var t := Serve(x.task, input).0;
    if input.LoginSucceeds? && k == x.task.nextConn {
      NothingRelayedYet(t.written, k);
    }
    if t.written != x.task.written {
      assert input.ReceiveFails?;
      var w := t.written[|x.task.written|];
      assert t.written == x.task.written + [w] && !w.relayed;
      RelayedAppend(x.task.written, w, k);
    }
  }

  lemma RelayedAfterServe(x: System, input: Input, k: nat)
    requires Faithful(x) && CanServe(x, input)
    ensures RelayedWell(x.client, Serve(x.task, input).0, k)
  {
    assert RelayedWell(x.client, x.task, k);
    if input.CommandArrives? && input.writerUp {
      RelayedAfterCommand(x, input.message, k);
    } else {
      RelayedAfterOther(x, input, k);
    }
  }

  lemma FaithfulAfterServe(lib: Library, x: System, input: Input)
    requires Faithful(x) && CanServe(x, input)
    ensures Faithful(MoveOn(lib, x, TaskDoes(input)))
  {
    NumberedAfterServe(lib, x, input);
    forall k: nat
      ensures Relayed(Serve(x.task, input).0.written, k) <= MessagesOf(QueueTheorems.SentOver(x.client.sent, k))
    {
      RelayedAfterServe(x, input, k);
    }
    var t := Serve(x.task, input).0;
    if t.phase.Online? {
      RelayedAfterServe(x, input, t.phase.conn);
    }
  }

  lemma {:induction false} AlwaysFaithful(lib: Library, reconnects: bool, moves: seq<Move>)
    ensures Faithful(Reached(lib, reconnects, moves))
  {
    if moves != [] {
      var x, m := Reached(lib, reconnects, moves[..|moves| - 1]), moves[|moves| - 1];
      AlwaysFaithful(lib, reconnects, moves[..|moves| - 1]);
      if CanMove(x, m) {
        match m
        case ClientDoes(a) => FaithfulAfterClient(lib, x, a);
        case ClientTakesEvent => FaithfulAfterTakesEvent(lib, x);
        case ClientSeesEnd => FaithfulAfterClient(lib, x, EventsClosed);
        case TaskDoes(input) => FaithfulAfterServe(lib, x, input);
      }
    }
  }

  // ------------------------------------------------------------------- results

  lemma PrefixByOrigin(sent: seq<Sent>, n: nat, origin: Origin)
    requires n <= |sent|
    ensures SentBy(sent[..n], origin) <= SentBy(sent, origin)
    decreases |sent| - n
  {
    if n < |sent| {
      assert sent[..n + 1] == sent[..n] + [sent[n]];
      SentAppend(sent[..n], sent[n], origin);
      PrefixByOrigin(sent, n + 1, origin);
    } else {
      assert sent[..n] == sent;
    }
  }

  lemma {:induction false} SentOverIsSent(sent: seq<Sent>, conn: nat, origin: Origin, m: Message)
    requires m in SentBy(QueueTheorems.SentOver(sent, conn), origin)
    ensures m in SentBy(sent, origin)
  {
    var at := QueueTheorems.SentOverIsPicked(sent, conn, origin);
    var i :| 0 <= i < |at| && SentBy(QueueTheorems.SentOver(sent, conn), origin)[i] == m;
    assert SentBy(sent, origin)[at[i]] == m;
  }

  /**
   * On every run of both sides: what the task writes to a connection for the client is, message by message, the
   * first part of what the client sent over that connection. So call requests reach the wire in issue order,
   * direct messages in the order they were posted, and no call request before its registration.
   */
  lemma WrittenInOrder(lib: Library, reconnects: bool, moves: seq<Move>, conn: nat)
    returns (relayed: seq<Sent>)
    ensures
      var x, run := Reached(lib, reconnects, moves), ActionsOf(lib, reconnects, moves);
      && x.client == After(lib, run)
      && relayed <= QueueTheorems.SentOver(x.client.sent, conn)
      && MessagesOf(relayed) == Relayed(x.task.written, conn)
      && QueueTheorems.Subsequence(SentBy(relayed, FromCall),
                                   QueueTheorems.Identified(HistoryTheorems.CallsMade(lib, run)))
      && QueueTheorems.Subsequence(SentBy(relayed, Application), HistoryTheorems.MessagesPosted(lib, run))
      && forall m :: m in SentBy(relayed, FromCall) ==> CallTheorems.WasRegistered(lib, run, m)
  {
    var x := Reached(lib, reconnects, moves);
    var run := ActionsOf(lib, reconnects, moves);
    ClientRunOf(lib, reconnects, moves);
    AlwaysFaithful(lib, reconnects, moves);
    var over := QueueTheorems.SentOver(x.client.sent, conn);
    var n := |Relayed(x.task.written, conn)|;
    relayed := over[..n];
    QueueTheorems.EachConnectionKeepsIssueOrder(lib, run, conn);
    PrefixByOrigin(over, n, FromCall);
    PrefixByOrigin(over, n, Application);
    QueueTheorems.PrefixIsPicked(SentBy(over, FromCall), SentBy(relayed, FromCall),
                                 QueueTheorems.Identified(HistoryTheorems.CallsMade(lib, run)));
    QueueTheorems.PrefixIsPicked(SentBy(over, Application), SentBy(relayed, Application),
                                 HistoryTheorems.MessagesPosted(lib, run));
    forall m | m in SentBy(relayed, FromCall) ensures CallTheorems.WasRegistered(lib, run, m) {
      assert m in SentBy(over, FromCall);
      SentOverIsSent(x.client.sent, conn, FromCall, m);
      CallTheorems.RegistrationPrecedesWire(lib, run, m);
    }
  }

  // ------------------------------------------------ subscriptions on the wire

  /** The client neither loses nor takes a connection, nor learns of another version. */
  predicate SameConnectionMove(x: System, m: Move, version: ApiVersion) {
    && (m.ClientDoes? ==> BrokerTheorems.SameConnection(m.a, version))
    && (m.ClientTakesEvent? && x.events != [] ==> BrokerTheorems.SameConnection(NextEvent(x.events[0]), version))
  }

  ghost predicate MoveUnsubscribesAlias(x: System, m: Move) {
    m.ClientDoes? && CanMove(x, m) && BrokerTheorems.UnsubscribesAlias(x.client, m.a)
  }

  /** The systems a run passes through from `moves` on: before each of the moves in `more`, and after the last. */
  function Trace(lib: Library, reconnects: bool, moves: seq<Move>, more: seq<Move>): (trace: seq<System>)
    ensures |trace| == |more| + 1
  {
    seq(|more| + 1, j requires 0 <= j <= |more| => Reached(lib, reconnects, moves + more[..j]))
  }

  lemma TraceSteps(lib: Library, reconnects: bool, moves: seq<Move>, more: seq<Move>)
    ensures Steps(lib, Trace(lib, reconnects, moves, more), more)
    ensures Trace(lib, reconnects, moves, more)[0] == Reached(lib, reconnects, moves)
    ensures Trace(lib, reconnects, moves, more)[|more|] == Reached(lib, reconnects, moves + more)
  {
    assert moves + more[..0] == moves && more[..|more|] == more;
    forall j | 0 <= j < |more|
      ensures Reached(lib, reconnects, moves + more[..j + 1])
           == MoveOn(lib, Reached(lib, reconnects, moves + more[..j]), more[j])
    {
      assert moves + more[..j + 1] == moves + more[..j] + [more[j]];
      OneMore(lib, reconnects, moves + more[..j], more[j]);
    }
    forall j | 0 <= j <= |more| ensures ClientSafety.Inv(Reached(lib, reconnects, moves + more[..j]).client) {
      ClientInvAlways(lib, reconnects, moves + more[..j]);
    }
  }

  lemma ClientInvAlways(lib: Library, reconnects: bool, moves: seq<Move>)
    ensures ClientSafety.Inv(Reached(lib, reconnects, moves).client)
  {
    ClientRunOf(lib, reconnects, moves);
    ClientSafety.InvAlways(lib, ActionsOf(lib, reconnects, moves));
  }

  /** One move after the other, with the client's invariant in every state. */
  ghost predicate Steps(lib: Library, trace: seq<System>, more: seq<Move>) {
    && |trace| == |more| + 1
    && (forall j :: 0 <= j < |more| ==> trace[j + 1] == MoveOn(lib, trace[j], more[j]))
    && (forall j :: 0 <= j < |trace| ==> ClientSafety.Inv(trace[j].client))
  }

  predicate AllSameConnectionMoves(trace: seq<System>, more: seq<Move>, version: ApiVersion)
    requires |trace| == |more| + 1
  {
    forall j :: 0 <= j < |more| ==> SameConnectionMove(trace[j], more[j], version)
  }

  ghost predicate NoMoveUnsubscribesAlias(trace: seq<System>, more: seq<Move>)
    requires |trace| == |more| + 1
  {
    forall j :: 0 <= j < |more| ==> !MoveUnsubscribesAlias(trace[j], more[j])
  }

  ghost predicate AlwaysMatches(trace: seq<System>, version: ApiVersion) {
    forall j :: 0 <= j < |trace| ==> BrokerTheorems.BrokerMatches(version, trace[j].client)
  }

  /** The client uses the connection, and no version is known but this one. */
  predicate Serving(version: ApiVersion, conn: nat, s: State) {
    s.conn == Some(conn) && (s.version.None? || s.version == Some(version))
  }

  lemma ServingAfterStep(lib: Library, version: ApiVersion, conn: nat, s: State, a: Action)
    requires Serving(version, conn, s) && BrokerTheorems.SameConnection(a, version)
    ensures Serving(version, conn, Step(lib, s, a))
  {
  }

  lemma ServingAfterMove(lib: Library, version: ApiVersion, conn: nat, x: System, m: Move)
    requires Serving(version, conn, x.client) && SameConnectionMove(x, m, version)
    ensures Serving(version, conn, MoveOn(lib, x, m).client)
  {
    if CanMove(x, m) {
      match m
      case ClientDoes(a) => ServingAfterStep(lib, version, conn, x.client, a);
      case ClientTakesEvent => ServingAfterStep(lib, version, conn, x.client, NextEvent(x.events[0]));
      case ClientSeesEnd => ServingAfterStep(lib, version, conn, x.client, EventsClosed);
      case TaskDoes(_) =>
    }
  }

  lemma MatchesAfterMove(lib: Library, version: ApiVersion, conn: nat, x: System, m: Move)
    requires ClientSafety.Inv(x.client) && Serving(version, conn, x.client) && SameConnectionMove(x, m, version)
    requires BrokerTheorems.BrokerMatches(version, x.client)
    ensures BrokerTheorems.BrokerMatches(version, MoveOn(lib, x, m).client) <==> !MoveUnsubscribesAlias(x, m)
  {
    if CanMove(x, m) {
      match m
      case ClientDoes(a) => BrokerTheorems.MatchesAfterStep(lib, version, x.client, a);
      case ClientTakesEvent => BrokerTheorems.MatchesAfterStep(lib, version, x.client, NextEvent(x.events[0]));
      case ClientSeesEnd => BrokerTheorems.MatchesAfterStep(lib, version, x.client, EventsClosed);
      case TaskDoes(_) =>
    }
  }

  lemma {:induction false} ServingAt(lib: Library, trace: seq<System>, more: seq<Move>,
                                     version: ApiVersion, conn: nat, j: nat)
    requires Steps(lib, trace, more) && Serving(version, conn, trace[0].client) && j <= |more|
    requires AllSameConnectionMoves(trace, more, version)
    ensures Serving(version, conn, trace[j].client)
  {
    if j > 0 {
      var i := j - 1;
      ServingAt(lib, trace, more, version, conn, i);
      assert trace[i + 1] == MoveOn(lib, trace[i], more[i]);
      ServingAfterMove(lib, version, conn, trace[i], more[i]);
    }
  }

  lemma MatchesNext(lib: Library, trace: seq<System>, more: seq<Move>, version: ApiVersion, conn: nat, j: nat)
    requires Steps(lib, trace, more) && Serving(version, conn, trace[0].client) && j < |more|
    requires AllSameConnectionMoves(trace, more, version) && BrokerTheorems.BrokerMatches(version, trace[j].client)
    ensures BrokerTheorems.BrokerMatches(version, trace[j + 1].client) <==> !MoveUnsubscribesAlias(trace[j], more[j])
  {
    ServingAt(lib, trace, more, version, conn, j);
    assert trace[j + 1] == MoveOn(lib, trace[j], more[j]);
    MatchesAfterMove(lib, version, conn, trace[j], more[j]);
  }

  lemma {:induction false} MatchesAt(lib: Library, trace: seq<System>, more: seq<Move>,
                                     version: ApiVersion, conn: nat, j: nat)
    requires Steps(lib, trace, more) && Serving(version, conn, trace[0].client) && j <= |more|
    requires AllSameConnectionMoves(trace, more, version) && NoMoveUnsubscribesAlias(trace, more)
    requires BrokerTheorems.BrokerMatches(version, trace[0].client)
    ensures BrokerTheorems.BrokerMatches(version, trace[j].client)
  {
    if j > 0 {
      MatchesAt(lib, trace, more, version, conn, j - 1);
      MatchesNext(lib, trace, more, version, conn, j - 1);
    }
  }

  lemma AlwaysMatchesExactly(lib: Library, trace: seq<System>, more: seq<Move>, version: ApiVersion, conn: nat)
    requires Steps(lib, trace, more) && Serving(version, conn, trace[0].client)
    requires AllSameConnectionMoves(trace, more, version)
    ensures AlwaysMatches(trace, version)
       <==> BrokerTheorems.BrokerMatches(version, trace[0].client) && NoMoveUnsubscribesAlias(trace, more)
  {
    if AlwaysMatches(trace, version) {
      forall j | 0 <= j < |more| ensures !MoveUnsubscribesAlias(trace[j], more[j]) {
        MatchesNext(lib, trace, more, version, conn, j);
      }
    } else if BrokerTheorems.BrokerMatches(version, trace[0].client) && NoMoveUnsubscribesAlias(trace, more) {
      forall j | 0 <= j <= |more| ensures BrokerTheorems.BrokerMatches(version, trace[j].client) {
        MatchesAt(lib, trace, more, version, conn, j);
      }
    }
  }

  /** The client takes this connection, with no version known but this one. */
  predicate TakesConnection(x: System, conn: nat, version: ApiVersion) {
    && CanMove(x, ClientTakesEvent) && x.events[0] == Connected(conn)
    && (x.client.version.None? || x.client.version == Some(version))
  }

  lemma TakenState(lib: Library, x: System, conn: nat, version: ApiVersion)
    requires TakesConnection(x, conn, version)
    ensures
      var s' := MoveOn(lib, x, ClientTakesEvent).client;
      && Serving(version, conn, s')
      && (BrokerTheorems.BrokerMatches(version, s') <==> BrokerTheorems.QueueTellsTable(version, x.client))
  {
    assert MoveOn(lib, x, ClientTakesEvent).client == HandleEvent(lib, x.client, Connected(conn));
    BrokerTheorems.MatchesWhenTaken(lib, version, x.client, conn);
  }

  lemma ServingOnceTaken(lib: Library, reconnects: bool, moves: seq<Move>, conn: nat, version: ApiVersion)
    requires TakesConnection(Reached(lib, reconnects, moves), conn, version)
    ensures
      var s, s' := Reached(lib, reconnects, moves).client, Reached(lib, reconnects, moves + [ClientTakesEvent]).client;
      && Serving(version, conn, s')
      && (BrokerTheorems.BrokerMatches(version, s') <==> BrokerTheorems.QueueTellsTable(version, s))
  {
    OneMore(lib, reconnects, moves, ClientTakesEvent);
    TakenState(lib, Reached(lib, reconnects, moves), conn, version);
  }

  /**
   * For the time the client uses one connection, in runs of both sides: broker and table match in every state if and
   * only if what is queued when the connection is taken makes up the table, and no move unsubscribes an alias.
   */
  lemma ConnectionTellsTheTableExactly(lib: Library, reconnects: bool, moves: seq<Move>, conn: nat,
                                       more: seq<Move>, version: ApiVersion)
    requires TakesConnection(Reached(lib, reconnects, moves), conn, version)
    requires AllSameConnectionMoves(Trace(lib, reconnects, moves + [ClientTakesEvent], more), more, version)
    ensures
      var trace := Trace(lib, reconnects, moves + [ClientTakesEvent], more);
      AlwaysMatches(trace, version)
      <==> BrokerTheorems.QueueTellsTable(version, Reached(lib, reconnects, moves).client)
           && NoMoveUnsubscribesAlias(trace, more)
  {
    ServingOnceTaken(lib, reconnects, moves, conn, version);
    TraceSteps(lib, reconnects, moves + [ClientTakesEvent], more);
    AlwaysMatchesExactly(lib, Trace(lib, reconnects, moves + [ClientTakesEvent], more), more, version, conn);
  }

  lemma WrittenIsHandedOver(x: System, conn: nat) returns (relayed: seq<Sent>)
    requires Faithful(x) && x.client.conn == Some(conn)
    ensures relayed <= HandedOver(x.client) && MessagesOf(relayed) == Relayed(x.task.written, conn)
    ensures SentBy(relayed, FromSubscription) <= BrokerTheorems.SubscriptionMessages(x.client)
    ensures relayed == HandedOver(x.client) && Queued(x.client.cmds, FromSubscription) == [] ==>
              SentBy(relayed, FromSubscription) == BrokerTheorems.SubscriptionMessages(x.client)
  {
    SentOverFrom(x.client.sent, x.client.mark, conn);
    var over := HandedOver(x.client);
    assert over == QueueTheorems.SentOver(x.client.sent, conn);
    assert Relayed(x.task.written, conn) <= MessagesOf(over);
    var n := |Relayed(x.task.written, conn)|;
    relayed := over[..n];
    PrefixByOrigin(over, n, FromSubscription);
    assert SentBy(over, FromSubscription) + [] == SentBy(over, FromSubscription);
  }

  /**
   * What the broker is told: as long as a connection is used that began with a queue making up the table, and no
   * alias is unsubscribed, the subscription messages written to it are the first ones of those that make a broker
   * hold the table; and once all that was handed over is written and none is queued, it holds the table.
   */
  lemma WrittenTellsTheTable(lib: Library, reconnects: bool, moves: seq<Move>, conn: nat,
                             more: seq<Move>, version: ApiVersion) returns (relayed: seq<Sent>)
    requires TakesConnection(Reached(lib, reconnects, moves), conn, version)
    requires AllSameConnectionMoves(Trace(lib, reconnects, moves + [ClientTakesEvent], more), more, version)
    requires BrokerTheorems.QueueTellsTable(version, Reached(lib, reconnects, moves).client)
    requires NoMoveUnsubscribesAlias(Trace(lib, reconnects, moves + [ClientTakesEvent], more), more)
    ensures
      var x := Reached(lib, reconnects, moves + [ClientTakesEvent] + more);
      var told, table := BrokerTheorems.SubscriptionMessages(x.client),
                         BrokerTheorems.KeysOf(version, Subs.Ris(x.client.subs.table));
      && relayed <= HandedOver(x.client) && MessagesOf(relayed) == Relayed(x.task.written, conn)
      && SentBy(relayed, FromSubscription) <= told && BrokerTheorems.BrokerHolds(told) == table
      && (|Relayed(x.task.written, conn)| == |HandedOver(x.client)| && Queued(x.client.cmds, FromSubscription) == [] ==>
            BrokerTheorems.BrokerHolds(SentBy(relayed, FromSubscription)) == table)
  {
    var taken := moves + [ClientTakesEvent];
    var trace := Trace(lib, reconnects, taken, more);
    ServingOnceTaken(lib, reconnects, moves, conn, version);
    TraceSteps(lib, reconnects, taken, more);
    ServingAt(lib, trace, more, version, conn, |more|);
    MatchesAt(lib, trace, more, version, conn, |more|);
    AlwaysFaithful(lib, reconnects, taken + more);
    relayed := WrittenIsHandedOver(Reached(lib, reconnects, taken + more), conn);
  }
}
