/**
 * The subscription table, the outstanding subscription requests and the notification channels.
 *
 * A notification channel is named by the id of the subscription it was created with.
 */
module Subscriptions {
  import opened Basics
  import opened Wire
  import Paths

  datatype Entry = Entry(confirmed: bool, id: nat, ri: Ri)
  datatype RequestKind = Subscribing | Unsubscribing
  datatype Emitted = Emitted(kind: RequestKind, ri: Ri)

  datatype Subs = Subs(
    table: seq<Entry>,
    requests: map<int, nat>,      // id of an unanswered subscribe request -> subscription id
    logs: map<nat, seq<Frame>>,   // everything sent into each notification channel
    emitted: seq<Emitted>)        // requests made since the table was last cleared

  const NO_SUBS := Subs([], map[], map[], [])

  // ------------------------------------------------------------- functions

  /** Does a subscription to `sub` cover the notification `ri`? */
  predicate Matches(lib: Library, sub: Ri, ri: Ri, version: ApiVersion) {
    match version
    case V2 => (sub.signal == Some("*") || sub.signal == ri.signal) && Paths.PathMatches(sub.path, ri.path)
    case V3 => lib.globMatch(sub, ri)
  }

  /** The RI the table keeps for a subscription, or None when its parameters are invalid. */
  function AcceptedRi(lib: Library, version: ApiVersion, ri: Ri): Option<Ri> {
    if version.V2? && !lib.validRi(ri.path, "*", ri.signal) then None
    else
      var patched := if version.V2? then Ri(ri.path, "*", ri.signal) else ri;
      if patched.signal.Some? && lib.validGlob(patched) then Some(patched) else None
  }

  /** The signal as SHV 2 brokers expect it: all signals are written as the empty string. */
  function V2Signal(signal: Option<string>): Option<string> {
    if signal == Some("*") then Some("") else signal
  }

  function CreateSubscriptionRequest(ri: Ri, kind: RequestKind, version: ApiVersion, id: int): Message {
    var rpcMethod := if kind.Subscribing? then "subscribe" else "unsubscribe";
    match version
    case V2 => Request(Some(id), ".broker/app", rpcMethod, V2Subscription(V2Signal(ri.signal), ri.path))
    case V3 => Request(Some(id), ".broker/currentClient", rpcMethod, V3Subscription(ri))
  }

  predicate HasId(table: seq<Entry>, id: nat) {
    exists k :: 0 <= k < |table| && table[k].id == id
  }

  predicate HasRi(table: seq<Entry>, ri: Ri) {
    exists k :: 0 <= k < |table| && table[k].ri == ri
  }

  /** Index of the first entry with the id, or the length of the table. */
  function Position(table: seq<Entry>, id: nat): (pos: nat)
    ensures pos <= |table|
    ensures pos < |table| ==> table[pos].id == id
    ensures forall k :: 0 <= k < pos ==> table[k].id != id
  {
    if table == [] || table[0].id == id then 0 else 1 + Position(table[1..], id)
  }

  /** The last entry takes the place of the removed one. */
  function SwapRemove(table: seq<Entry>, pos: nat): seq<Entry>
    requires pos < |table|
  {
    var last := |table| - 1;
    if pos == last then table[..last] else table[..last][pos := table[last]]
  }

  function ConfirmAt(table: seq<Entry>, pos: nat): seq<Entry>
    requires pos < |table|
  {
    table[pos := table[pos].(confirmed := true)]
  }

  /** A subscription to an RI nobody holds yet: wait for the broker's answer to request `request`. */
  function AddNew(s: Subs, ri: Ri, id: nat, request: int): Subs {
    s.(table := s.table + [Entry(false, id, ri)],
       requests := s.requests[request := id],
       emitted := s.emitted + [Emitted(Subscribing, ri)])
  }

  /** A subscription to an RI already held is answered on the spot. */
  function Join(s: Subs, ri: Ri, id: nat, answer: Frame): Subs {
    s.(table := s.table + [Entry(true, id, ri)], logs := Send(s.logs, id, answer))
  }

  function Reject(s: Subs, id: nat, answer: Frame): Subs {
    s.(logs := Send(s.logs, id, answer))
  }

  /** The RI to unsubscribe from, if the removed entry was the last to hold it. */
  function Orphaned(table: seq<Entry>, id: nat): Option<Ri> {
    var pos := Position(table, id);
    if pos < |table| && !HasRi(SwapRemove(table, pos), table[pos].ri) then Some(table[pos].ri) else None
  }

  function Remove(s: Subs, id: nat): Subs {
    var pos := Position(s.table, id);
    if pos == |s.table| then s
    else
      var orphaned := Orphaned(s.table, id);
      s.(table := SwapRemove(s.table, pos),
         emitted := if orphaned.Some? then s.emitted + [Emitted(Unsubscribing, orphaned.value)] else s.emitted)
  }

  /** An answer to an outstanding request: forward it and start forwarding notifications. */
  function Confirm(s: Subs, request: int, answer: Frame): Subs
    requires request in s.requests
  {
    var id := s.requests[request];
    var pos := Position(s.table, id);
    if pos == |s.table| then s.(requests := s.requests - {request})
    else s.(requests := s.requests - {request}, table := ConfirmAt(s.table, pos), logs := Send(s.logs, id, answer))
  }

  /** A notification goes to the confirmed matching entries among the first `n`, in table order. */
  function FanOut(lib: Library, version: ApiVersion, ri: Ri, frame: Frame,
                  table: seq<Entry>, logs: map<nat, seq<Frame>>, n: nat): map<nat, seq<Frame>>
    requires n <= |table|
  {
    if n == 0 then logs
    else
      var logs' := FanOut(lib, version, ri, frame, table, logs, n - 1);
      if table[n - 1].confirmed && Matches(lib, table[n - 1].ri, ri, version) then Send(logs', table[n - 1].id, frame)
      else logs'
  }

  function Clear(s: Subs): Subs {
    Subs([], map[], s.logs, [])
  }

  // ------------------------------------------- the table as a set of RIs

  function Ris(table: seq<Entry>): set<Ri> {
    set k | 0 <= k < |table| :: table[k].ri
  }

  /** What a broker that starts empty holds after the requests. */
  function Replay(log: seq<Emitted>): set<Ri> {
    if log == [] then {}
    else
      var held, e := Replay(log[..|log| - 1]), log[|log| - 1];
      if e.kind.Subscribing? then held + {e.ri} else held - {e.ri}
  }

  /** The kinds of the requests made for one RI, in order. */
  function KindsFor(log: seq<Emitted>, ri: Ri): seq<RequestKind> {
    if log == [] then []
    else
      var kinds, e := KindsFor(log[..|log| - 1], ri), log[|log| - 1];
      if e.ri == ri then kinds + [e.kind] else kinds
  }

  /** Subscribe, unsubscribe, subscribe, ... */
  ghost predicate Alternates(kinds: seq<RequestKind>) {
    forall i :: 0 <= i < |kinds| ==> kinds[i] == if i % 2 == 0 then Subscribing else Unsubscribing
  }

  /** How the requests for one RI stand: they alternate, and an odd number of them means it is held. */
  ghost predicate OrderlyFor(log: seq<Emitted>, held: set<Ri>, ri: Ri) {
    Alternates(KindsFor(log, ri)) && (ri in held <==> |KindsFor(log, ri)| % 2 == 1)
  }

  ghost predicate Orderly(log: seq<Emitted>, held: set<Ri>) {
    Replay(log) == held && forall ri :: OrderlyFor(log, held, ri)
  }

  lemma KindsAppend(log: seq<Emitted>, e: Emitted, ri: Ri)
    ensures KindsFor(log + [e], ri) == if ri == e.ri then KindsFor(log, ri) + [e.kind] else KindsFor(log, ri)
  {
    assert (log + [e])[..|log|] == log;
  }

  lemma AlternatesAppend(kinds: seq<RequestKind>, kind: RequestKind)
    requires Alternates(kinds) && (kind.Subscribing? <==> |kinds| % 2 == 0)
    ensures Alternates(kinds + [kind])
  {
  }

  lemma OrderlyForAppend(log: seq<Emitted>, held: set<Ri>, e: Emitted, held': set<Ri>, ri: Ri)
    requires OrderlyFor(log, held, ri) && (ri == e.ri ==> (e.kind.Subscribing? <==> ri !in held))
    requires ri in held' <==> if ri == e.ri then e.kind.Subscribing? else ri in held
    ensures OrderlyFor(log + [e], held', ri)
  {
    KindsAppend(log, e, ri);
    if ri == e.ri {
      AlternatesAppend(KindsFor(log, ri), e.kind);
    }
  }

  lemma OrderlyAppend(log: seq<Emitted>, held: set<Ri>, e: Emitted)
    requires Orderly(log, held)
    requires e.kind.Subscribing? <==> e.ri !in held
    ensures Orderly(log + [e], if e.kind.Subscribing? then held + {e.ri} else held - {e.ri})
  {
    assert (log + [e])[..|log|] == log;
    var held' := if e.kind.Subscribing? then held + {e.ri} else held - {e.ri};
    forall ri ensures OrderlyFor(log + [e], held', ri) {
      assert OrderlyFor(log, held, ri);
      OrderlyForAppend(log, held, e, held', ri);
    }
  }

  lemma RisAfterAdd(table: seq<Entry>, e: Entry)
    ensures Ris(table + [e]) == Ris(table) + {e.ri}
  {
    var table' := table + [e];
    forall ri | ri in Ris(table) + {e.ri} ensures ri in Ris(table') {
      if ri == e.ri {
        assert table'[|table|].ri == ri;
      } else {
        var k :| 0 <= k < |table| && table[k].ri == ri;
        assert table'[k].ri == ri;
      }
    }
  }

  /** Whatever the order, what is left after `swap_remove` is everything but the removed entry. */
  lemma SwapRemoveEntries(table: seq<Entry>, pos: nat, e: Entry)
    requires pos < |table|
    requires forall i, j :: 0 <= i < j < |table| ==> table[i].id != table[j].id
    ensures |SwapRemove(table, pos)| == |table| - 1
    ensures e in SwapRemove(table, pos) <==> e in table && e != table[pos]
    ensures forall i, j :: 0 <= i < j < |table| - 1 ==> SwapRemove(table, pos)[i].id != SwapRemove(table, pos)[j].id
  {
    var left := SwapRemove(table, pos);
    if e in table && e != table[pos] {
      var k :| 0 <= k < |table| && table[k] == e;
      assert left[if k == |table| - 1 then pos else k] == e;
    }
  }

  lemma RisAfterRemove(table: seq<Entry>, pos: nat)
    requires pos < |table|
    ensures Ris(SwapRemove(table, pos))
         == if HasRi(SwapRemove(table, pos), table[pos].ri) then Ris(table) else Ris(table) - {table[pos].ri}
  {
    var left := SwapRemove(table, pos);
    forall ri | ri in Ris(table) && ri != table[pos].ri ensures ri in Ris(left) {
      var k :| 0 <= k < |table| && table[k].ri == ri;
      assert left[if k == |table| - 1 then pos else k].ri == ri;
    }
    forall ri | ri in Ris(left) ensures ri in Ris(table) {
      var k :| 0 <= k < |left| && left[k].ri == ri;
      assert table[if k == pos then |table| - 1 else k].ri == ri;
    }
    if HasRi(left, table[pos].ri) {
      var k :| 0 <= k < |left| && left[k].ri == table[pos].ri;
      assert left[k].ri in Ris(left);
    }
  }

  // ------------------------------------------------------------ invariants

  ghost predicate Outstanding(s: Subs, id: nat) {
    exists request :: request in s.requests && s.requests[request] == id
  }

  /** A channel holds one response, then signals. */
  ghost predicate WellFormedLog(log: seq<Frame>) {
    forall k :: 0 <= k < |log| ==> if k == 0 then log[k].ResponseFrame? else log[k].SignalFrame?
  }

  /** Ids of the entries are distinct, and so are the subscriptions that requests wait for. */
  ghost predicate Distinct(s: Subs) {
    && (forall i, j :: 0 <= i < j < |s.table| ==> s.table[i].id != s.table[j].id)
    && (forall q, q' :: q in s.requests && q' in s.requests && q != q' ==> s.requests[q] != s.requests[q'])
  }

  /** An entry is unconfirmed exactly while its request is unanswered, and only confirmed ones got frames. */
  ghost predicate Confirmations(s: Subs) {
    forall k :: 0 <= k < |s.table| ==>
      && (s.table[k].confirmed <==> !Outstanding(s, s.table[k].id))
      && (s.table[k].confirmed <==> Log(s.logs, s.table[k].id) != [])
  }

  /** Subscriptions whose command is still queued have left no trace yet. */
  ghost predicate Untouched(s: Subs, waiting: seq<nat>, next: nat) {
    && NoDup(waiting)
    && (forall k :: 0 <= k < |waiting| ==>
          && waiting[k] < next && !HasId(s.table, waiting[k]) && !Outstanding(s, waiting[k])
          && Log(s.logs, waiting[k]) == [])
    && (forall k :: 0 <= k < |s.table| ==> s.table[k].id < next)
    && (forall q :: q in s.requests ==> s.requests[q] < next)
    && (forall id :: id in s.logs ==> id < next)
  }

  ghost predicate Good(s: Subs, waiting: seq<nat>, next: nat) {
    && Distinct(s)
    && Confirmations(s)
    && Untouched(s, waiting, next)
    && (forall id :: id in s.logs ==> WellFormedLog(s.logs[id]))
    && Orderly(s.emitted, Ris(s.table))
  }

  lemma GoodAfterIssue(s: Subs, waiting: seq<nat>, next: nat)
    requires Good(s, waiting, next)
    ensures Good(s, waiting + [next], next + 1)
  {
  }

  lemma OutstandingAfterAddNew(s: Subs, ri: Ri, id: nat, request: int, other: nat)
    requires request !in s.requests
    ensures Outstanding(AddNew(s, ri, id, request), other) <==> Outstanding(s, other) || other == id
  {
    var s' := AddNew(s, ri, id, request);
    assert s'.requests[request] == id;
    if Outstanding(s, other) {
      var q :| q in s.requests && s.requests[q] == other;
      assert s'.requests[q] == other;
    }
  }

  lemma OrderlyAfterAddNew(s: Subs, ri: Ri, id: nat, request: int)
    requires Orderly(s.emitted, Ris(s.table)) && !HasRi(s.table, ri)
    ensures Orderly(AddNew(s, ri, id, request).emitted, Ris(AddNew(s, ri, id, request).table))
  {
    RisAfterAdd(s.table, Entry(false, id, ri));
    OrderlyAppend(s.emitted, Ris(s.table), Emitted(Subscribing, ri));
  }

  lemma EntriesAfterAddNew(s: Subs, ri: Ri, id: nat, request: int)
    requires Distinct(s) && Confirmations(s) && request !in s.requests
    requires !HasId(s.table, id) && !Outstanding(s, id) && Log(s.logs, id) == []
    ensures Distinct(AddNew(s, ri, id, request)) && Confirmations(AddNew(s, ri, id, request))
  {
    var s' := AddNew(s, ri, id, request);
    forall k | 0 <= k < |s'.table|
      ensures Outstanding(s', s'.table[k].id) <==> k == |s.table| || Outstanding(s, s.table[k].id)
    {
      OutstandingAfterAddNew(s, ri, id, request, s'.table[k].id);
    }
    forall q | q in s.requests ensures s.requests[q] != id {
      assert !Outstanding(s, id);
    }
  }

  lemma UntouchedAfterAddNew(s: Subs, waiting: seq<nat>, next: nat, ri: Ri, request: int)
    requires Untouched(s, waiting, next) && waiting != [] && request !in s.requests
    ensures Untouched(AddNew(s, ri, waiting[0], request), waiting[1..], next)
  {
    forall k | 0 <= k < |waiting| - 1 ensures !Outstanding(AddNew(s, ri, waiting[0], request), waiting[1..][k]) {
      OutstandingAfterAddNew(s, ri, waiting[0], request, waiting[k + 1]);
    }
  }

  lemma GoodAfterAddNew(s: Subs, waiting: seq<nat>, next: nat, ri: Ri, request: int)
    requires Good(s, waiting, next) && waiting != [] && !HasRi(s.table, ri) && request !in s.requests
    ensures Good(AddNew(s, ri, waiting[0], request), waiting[1..], next)
  {
    EntriesAfterAddNew(s, ri, waiting[0], request);
    UntouchedAfterAddNew(s, waiting, next, ri, request);
    OrderlyAfterAddNew(s, ri, waiting[0], request);
  }

  lemma EntriesAfterJoin(s: Subs, ri: Ri, id: nat, answer: Frame)
    requires Distinct(s) && Confirmations(s) && !HasId(s.table, id) && !Outstanding(s, id)
    ensures Distinct(Join(s, ri, id, answer)) && Confirmations(Join(s, ri, id, answer))
  {
    assert forall other :: Outstanding(Join(s, ri, id, answer), other) <==> Outstanding(s, other);
  }

  lemma UntouchedAfterJoin(s: Subs, waiting: seq<nat>, next: nat, ri: Ri, answer: Frame)
    requires Untouched(s, waiting, next) && waiting != []
    ensures Untouched(Join(s, ri, waiting[0], answer), waiting[1..], next)
  {
    assert forall other :: Outstanding(Join(s, ri, waiting[0], answer), other) <==> Outstanding(s, other);
  }

  lemma GoodAfterJoin(s: Subs, waiting: seq<nat>, next: nat, ri: Ri, answer: Frame)
    requires Good(s, waiting, next) && waiting != [] && HasRi(s.table, ri) && answer.ResponseFrame?
    ensures Good(Join(s, ri, waiting[0], answer), waiting[1..], next)
  {
    EntriesAfterJoin(s, ri, waiting[0], answer);
    UntouchedAfterJoin(s, waiting, next, ri, answer);
    RisAfterAdd(s.table, Entry(true, waiting[0], ri));
    assert Ris(s.table) + {ri} == Ris(s.table);
    assert forall id :: id in s.logs ==> WellFormedLog(s.logs[id]);
  }

  lemma GoodAfterReject(s: Subs, waiting: seq<nat>, next: nat, answer: Frame)
    requires Good(s, waiting, next) && waiting != [] && answer.ResponseFrame?
    ensures Good(Reject(s, waiting[0], answer), waiting[1..], next)
  {
  }

  lemma EntriesAfterRemove(s: Subs, pos: nat)
    requires pos < |s.table| && Distinct(s) && Confirmations(s)
    ensures Distinct(s.(table := SwapRemove(s.table, pos))) && Confirmations(s.(table := SwapRemove(s.table, pos)))
  {
  }

  lemma UntouchedAfterRemove(s: Subs, waiting: seq<nat>, next: nat, pos: nat)
    requires pos < |s.table| && Untouched(s, waiting, next)
    ensures Untouched(s.(table := SwapRemove(s.table, pos)), waiting, next)
  {
  }

  lemma OrderlyAfterRemove(s: Subs, id: nat)
    requires Orderly(s.emitted, Ris(s.table))
    ensures Orderly(Remove(s, id).emitted, Ris(Remove(s, id).table))
  {
    var pos := Position(s.table, id);
    if pos < |s.table| {
      var e := s.table[pos];
      RisAfterRemove(s.table, pos);
      if !HasRi(SwapRemove(s.table, pos), e.ri) {
        assert e.ri in Ris(s.table);
        OrderlyAppend(s.emitted, Ris(s.table), Emitted(Unsubscribing, e.ri));
      }
    }
  }

  /** The log of requests plays no part in these. */
  lemma OnlyTableMatters(s: Subs, s': Subs, waiting: seq<nat>, next: nat)
    requires s' == s.(emitted := s'.emitted) && Distinct(s) && Confirmations(s) && Untouched(s, waiting, next)
    ensures Distinct(s') && Confirmations(s') && Untouched(s', waiting, next)
  {
    assert forall id :: Outstanding(s', id) <==> Outstanding(s, id);
  }

  lemma GoodAfterRemove(s: Subs, waiting: seq<nat>, next: nat, id: nat)
    requires Good(s, waiting, next)
    ensures Good(Remove(s, id), waiting, next)
  {
    OrderlyAfterRemove(s, id);
    var pos := Position(s.table, id);
    if pos < |s.table| {
      EntriesAfterRemove(s, pos);
      UntouchedAfterRemove(s, waiting, next, pos);
      OnlyTableMatters(s.(table := SwapRemove(s.table, pos)), Remove(s, id), waiting, next);
    }
  }

  lemma GoodAfterConfirm(s: Subs, waiting: seq<nat>, next: nat, request: int, answer: Frame)
    requires Good(s, waiting, next) && request in s.requests && answer.ResponseFrame?
    ensures Good(Confirm(s, request, answer), waiting, next)
  {
    var s' := Confirm(s, request, answer);
    var id := s.requests[request];
    forall other ensures Outstanding(s', other) <==> Outstanding(s, other) && other != id {
      if Outstanding(s, other) && other != id {
        var q :| q in s.requests && s.requests[q] == other;
        assert q in s'.requests && s'.requests[q] == other;
      }
    }
    assert Ris(s'.table) == Ris(s.table) by {
      assert forall k :: 0 <= k < |s.table| ==> s'.table[k].ri == s.table[k].ri;
    }
  }

  /** Each confirmed matching subscription gets the notification exactly once, nobody else does. */
  lemma {:induction false} FanOutLog(lib: Library, version: ApiVersion, ri: Ri, frame: Frame,
                                     table: seq<Entry>, logs: map<nat, seq<Frame>>, n: nat, id: nat)
    requires n <= |table|
    requires forall i, j :: 0 <= i < j < |table| ==> table[i].id != table[j].id
    ensures
      var hit := exists k :: 0 <= k < n && table[k].id == id && table[k].confirmed
                             && Matches(lib, table[k].ri, ri, version);
      var logs' := FanOut(lib, version, ri, frame, table, logs, n);
      && Log(logs', id) == (if hit then Log(logs, id) + [frame] else Log(logs, id))
      && (id in logs' <==> id in logs || hit)
  {
    if n > 0 {
      FanOutLog(lib, version, ri, frame, table, logs, n - 1, id);
    }
  }

  lemma GoodAfterFanOut(lib: Library, version: ApiVersion, ri: Ri, frame: Frame, s: Subs, waiting: seq<nat>, next: nat)
    requires Good(s, waiting, next) && frame.SignalFrame?
    ensures Good(s.(logs := FanOut(lib, version, ri, frame, s.table, s.logs, |s.table|)), waiting, next)
  {
    var logs' := FanOut(lib, version, ri, frame, s.table, s.logs, |s.table|);
    forall id
      ensures Log(logs', id) == Log(s.logs, id)
              || (Log(s.logs, id) != [] && Log(logs', id) == Log(s.logs, id) + [frame])
      ensures Log(logs', id) == Log(s.logs, id) ==> (id in logs' <==> id in s.logs)
    {
      FanOutLog(lib, version, ri, frame, s.table, s.logs, |s.table|, id);
    }
  }

  lemma GoodAfterClear(s: Subs, waiting: seq<nat>, next: nat)
    requires Good(s, waiting, next)
    ensures Good(Clear(s), waiting, next)
  {
  }

  // --------------------------------------------------- what the broker sees

  /** The subscription a request names, as the broker can tell subscriptions apart. */
  datatype WireKey = KeyV2(signal: Option<string>, paths: string) | KeyV3(ri: Ri)

  function KeyOf(version: ApiVersion, ri: Ri): WireKey {
    if version.V2? then KeyV2(V2Signal(ri.signal), ri.path) else KeyV3(ri)
  }

  /** What a broker reads off a subscription request. */
  function ReadRequest(m: Message): Option<(RequestKind, WireKey)> {
    match m
    case Request(_, ".broker/app", "subscribe", V2Subscription(signal, paths)) =>
      Some((Subscribing, KeyV2(signal, paths)))
    case Request(_, ".broker/app", "unsubscribe", V2Subscription(signal, paths)) =>
      Some((Unsubscribing, KeyV2(signal, paths)))
    case Request(_, ".broker/currentClient", "subscribe", V3Subscription(ri)) => Some((Subscribing, KeyV3(ri)))
    case Request(_, ".broker/currentClient", "unsubscribe", V3Subscription(ri)) => Some((Unsubscribing, KeyV3(ri)))
    case _ => None
  }

  lemma RequestReadsBack(ri: Ri, kind: RequestKind, version: ApiVersion, id: int)
    ensures ReadRequest(CreateSubscriptionRequest(ri, kind, version, id)) == Some((kind, KeyOf(version, ri)))
  {
  }

  /**
   * Two accepted RIs look the same to the broker exactly when they are equal or, under SHV 2, one asks for
   * all signals ("*") and the other for the signal named "", which goes on the wire the same way.
   */
  lemma KeysCollideExactly(lib: Library, version: ApiVersion, asked: Ri, asked': Ri)
    requires AcceptedRi(lib, version, asked).Some? && AcceptedRi(lib, version, asked').Some?
    ensures
      var ri, ri' := AcceptedRi(lib, version, asked).value, AcceptedRi(lib, version, asked').value;
      KeyOf(version, ri) == KeyOf(version, ri')
      <==> ri == ri' || (version.V2? && ri.path == ri'.path && {ri.signal, ri'.signal} == {Some("*"), Some("")})
  {
    var ri, ri' := AcceptedRi(lib, version, asked).value, AcceptedRi(lib, version, asked').value;
    assert {ri.signal, ri'.signal} == {Some("*"), Some("")}
      <==> (ri.signal == Some("*") && ri'.signal == Some("")) || (ri.signal == Some("") && ri'.signal == Some("*")) by {
      if {ri.signal, ri'.signal} == {Some("*"), Some("")} {
        assert Some("*") in {ri.signal, ri'.signal} && Some("") in {ri.signal, ri'.signal};
      }
    }
  }

  // ---------------------------------------------------------- the table itself

  datatype AddResult = Invalid | Joined | Requested(request: Message)

  /** The subscription vector, changed in place. */
  class Table {
    var entries: seq<Entry>

    constructor ()
      ensures entries == []
    {
      entries := [];
    }

    method Clear()
      modifies this
      ensures entries == []
    {
      entries := [];
    }

    method Add(lib: Library, version: ApiVersion, ri: Ri, id: nat, requestId: int) returns (r: AddResult)
      requires AcceptedRi(lib, version, ri).Some? ==> !HasId(entries, id)
      modifies this
      ensures r.Invalid? <==> AcceptedRi(lib, version, ri).None?
      ensures r.Invalid? ==> entries == old(entries)
      ensures !r.Invalid? ==> entries == old(entries) + [Entry(false, id, AcceptedRi(lib, version, ri).value)]
      ensures !r.Invalid? ==> (r.Joined? <==> HasRi(old(entries), AcceptedRi(lib, version, ri).value))
      ensures r.Requested? ==>
                r.request
                == CreateSubscriptionRequest(AcceptedRi(lib, version, ri).value, Subscribing, version, requestId)
    {
      var accepted := ri;
      if version.V2? {
        if !lib.validRi(ri.path, "*", ri.signal) {
          return Invalid;
        }
        accepted := Ri(ri.path, "*", ri.signal);
      }
      if accepted.signal.None? || !lib.validGlob(accepted) {
        return Invalid;
      }
      var known := Holds(accepted);
      entries := entries + [Entry(false, id, accepted)];
      r := if known then Joined else Requested(CreateSubscriptionRequest(accepted, Subscribing, version, requestId));
    }

    /** Is there an entry with this RI? */
    method Holds(ri: Ri) returns (found: bool)
      ensures found <==> HasRi(entries, ri)
    {
      var k := 0;
      found := false;
      while k < |entries| && !found
        invariant 0 <= k <= |entries|
        invariant found ==> k < |entries| && entries[k].ri == ri
        invariant !found ==> forall i :: 0 <= i < k ==> entries[i].ri != ri
        decreases |entries| - k, !found
      {
        if entries[k].ri == ri {
          found := true;
        } else {
          k := k + 1;
        }
      }
    }

    method Find(id: nat) returns (pos: nat)
      ensures pos == Position(entries, id)
    {
      pos := 0;
      while pos < |entries| && entries[pos].id != id
        invariant 0 <= pos <= |entries|
        invariant forall k :: 0 <= k < pos ==> entries[k].id != id
      {
        pos := pos + 1;
      }
    }

    method SetConfirmed(id: nat)
      modifies this
      ensures entries == if Position(old(entries), id) < |old(entries)|
                         then ConfirmAt(old(entries), Position(old(entries), id)) else old(entries)
    {
      var pos := Find(id);
      if pos < |entries| {
        entries := entries[pos := entries[pos].(confirmed := true)];
      }
    }

    /** Removes the entry; returns an unsubscribe request if it was the last with its RI. */
    method Remove(version: ApiVersion, id: nat, requestId: int) returns (r: Option<Message>)
      modifies this
      ensures entries == if Position(old(entries), id) < |old(entries)|
                         then SwapRemove(old(entries), Position(old(entries), id)) else old(entries)
      ensures r == var orphaned := Orphaned(old(entries), id);
                   if orphaned.Some?
                   then Some(CreateSubscriptionRequest(orphaned.value, Unsubscribing, version, requestId)) else None
    {
      var pos := Find(id);
      if pos == |entries| {
        return None;
      }
      var removed := entries[pos].ri;
      var last := |entries| - 1;
      if pos < last {
        entries := entries[pos := entries[last]];
      }
      entries := entries[..last];
      assert entries == SwapRemove(old(entries), pos);
      var still := Holds(removed);
      r := if still then None else Some(CreateSubscriptionRequest(removed, Unsubscribing, version, requestId));
    }
  }
}
