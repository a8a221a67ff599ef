/**
 * Pending RPC calls and their timers: the two tables of the client loop that own the response channels.
 *
 * Calls are named by the order in which callers issued them, `issued[c]` being the request of call `c`.
 * A timer's update channel has its only sender in the pending entry, so it is open exactly while an entry
 * names the timer.
 */
module RpcCalls {
  import opened Basics
  import opened Wire

  datatype Call = Call(caller: nat, timer: nat)
  datatype Timer = Timer(request: int, updates: nat)

  datatype Calls = Calls(
    pending: map<int, Call>,
    timers: map<nat, Timer>,
    nextTimer: nat,
    logs: map<nat, seq<Frame>>,   // everything sent into each call's response channel
    abandoned: set<nat>)          // calls whose sender was dropped without a final frame

  const NO_CALLS := Calls(map[], map[], 0, map[], {})

  function CancelledFrame(id: int): Frame { ResponseFrame(Some(id), Some(Error(InternalError))) }
  function TimeoutFrame(id: int): Frame { ResponseFrame(Some(id), Some(Error(MethodCallTimeout))) }
  function IdlessFrame(): Frame { ResponseFrame(None, Some(Error(InvalidRequest))) }

  // ------------------------------------------------------------ operations

  /** A new timer and a pending entry; a call already pending under the id is cancelled. */
  function Register(r: Calls, id: int, caller: nat): Calls {
    Calls(r.pending[id := Call(caller, r.nextTimer)],
          r.timers[r.nextTimer := Timer(id, 0)],
          r.nextTimer + 1,
          if id in r.pending then Send(r.logs, r.pending[id].caller, CancelledFrame(id)) else r.logs,
          r.abandoned)
  }

  /** A request without an id is never registered: it is refused, or its sender just dropped. */
  function Refuse(r: Calls, caller: nat, answered: bool): Calls {
    if answered then r.(logs := Send(r.logs, caller, IdlessFrame())) else r.(abandoned := r.abandoned + {caller})
  }

  function UpdateTimer(timers: map<nat, Timer>, t: nat): map<nat, Timer> {
    if t in timers then timers[t := timers[t].(updates := timers[t].updates + 1)] else timers
  }

  /** A parsed response to a pending id: a delay updates the timer, anything else ends the call. */
  function Deliver(r: Calls, id: int, frame: Frame): Calls
    requires id in r.pending
  {
    var call := r.pending[id];
    if frame.IsDelay() then
      r.(timers := UpdateTimer(r.timers, call.timer), logs := Send(r.logs, call.caller, frame))
    else
      r.(pending := r.pending - {id}, logs := Send(r.logs, call.caller, frame))
  }

  /** The timer's sleep ran out. */
  function Expire(r: Calls, t: nat, frame: Frame): Calls
    requires t in r.timers
  {
    var id := r.timers[t].request;
    if id in r.pending then
      r.(timers := r.timers - {t}, pending := r.pending - {id}, logs := Send(r.logs, r.pending[id].caller, frame))
    else
      r.(timers := r.timers - {t})
  }

  /** The timer saw an update and starts sleeping again. */
  function Restart(r: Calls, t: nat): Calls
    requires t in r.timers && r.timers[t].updates > 0
  {
    r.(timers := r.timers[t := r.timers[t].(updates := r.timers[t].updates - 1)])
  }

  /** The timer saw its update channel closed. */
  function Cancel(r: Calls, t: nat): Calls {
    r.(timers := r.timers - {t})
  }

  function PendingCallers(r: Calls): set<nat> {
    set id | id in r.pending :: r.pending[id].caller
  }

  /** The connection is gone: every pending sender and every timer is dropped. */
  function Clear(r: Calls): Calls {
    r.(pending := map[], timers := map[], abandoned := r.abandoned + PendingCallers(r))
  }

  // ------------------------------------------------------------ invariants

  /** The update channel of timer `t` still has its sender. */
  predicate Held(r: Calls, t: nat) {
    exists id :: id in r.pending && r.pending[id].timer == t
  }

  ghost predicate Coupled(r: Calls) {
    && (forall id :: id in r.pending ==>
          r.pending[id].timer in r.timers && r.timers[r.pending[id].timer].request == id)
    && (forall t :: t in r.timers ==> t < r.nextTimer)
  }

  /** Every pending call has one live timer of its own; all other live timers have a closed update channel. */
  lemma CallsAndTimersPairUp(r: Calls)
    requires Coupled(r)
    ensures forall id, id' :: id in r.pending && id' in r.pending && id != id' ==>
              r.pending[id].timer != r.pending[id'].timer
    ensures forall t :: t in r.timers ==>
              (Held(r, t) <==> r.timers[t].request in r.pending && r.pending[r.timers[t].request].timer == t)
  {
  }

  ghost predicate AllDelays(request: Message, log: seq<Frame>) {
    forall k :: 0 <= k < |log| ==> log[k].IsDelay() && log[k].id == request.RequestId()
  }

  predicate FinalFrame(request: Message, frame: Frame) {
    && frame.ResponseFrame? && frame.body.Some? && !frame.IsDelay()
    && (frame.id == request.RequestId() || frame.body.value == Error(MethodCallTimeout))
    && (request.RequestId().None? ==> frame.body.value == Error(InvalidRequest))
  }

  /** Delay frames with the call's id, then one final frame and nothing more. */
  ghost predicate Finished(request: Message, log: seq<Frame>) {
    |log| > 0 && AllDelays(request, log[..|log| - 1]) && FinalFrame(request, log[|log| - 1])
  }

  predicate IsPending(r: Calls, issued: seq<Message>, c: nat)
    requires c < |issued|
  {
    var id := issued[c].RequestId();
    id.Some? && id.value in r.pending && r.pending[id.value].caller == c
  }

  /** A call is in exactly one of four places, and its channel's log says which. */
  ghost predicate Accounted(r: Calls, issued: seq<Message>, waiting: seq<nat>, c: nat)
    requires c < |issued|
  {
    var log := Log(r.logs, c);
    || (c in waiting && !IsPending(r, issued, c) && c !in r.abandoned && log == [])
    || (c !in waiting && IsPending(r, issued, c) && c !in r.abandoned && AllDelays(issued[c], log))
    || (c !in waiting && !IsPending(r, issued, c) && c in r.abandoned && AllDelays(issued[c], log))
    || (c !in waiting && !IsPending(r, issued, c) && c !in r.abandoned && Finished(issued[c], log))
  }

  /** `waiting` are the calls whose command is still queued. */
  ghost predicate Good(r: Calls, issued: seq<Message>, waiting: seq<nat>) {
    && Coupled(r)
    && (forall id :: id in r.pending ==>
          r.pending[id].caller < |issued| && issued[r.pending[id].caller].RequestId() == Some(id))
    && NoDup(waiting)
    && (forall k :: 0 <= k < |waiting| ==> waiting[k] < |issued|)
    && (forall c :: c in r.logs || c in r.abandoned ==> c < |issued|)
    && (forall c :: 0 <= c < |issued| ==> Accounted(r, issued, waiting, c))
  }

  lemma GoodAfterIssue(r: Calls, issued: seq<Message>, waiting: seq<nat>, request: Message)
    requires Good(r, issued, waiting)
    ensures Good(r, issued + [request], waiting + [|issued|])
  {
    var issued', waiting' := issued + [request], waiting + [|issued|];
    assert forall c :: c in waiting' <==> c in waiting || c == |issued|;
    assert forall id :: id in r.pending ==> issued'[r.pending[id].caller] == issued[r.pending[id].caller];
    forall c | 0 <= c < |issued'| ensures Accounted(r, issued', waiting', c) {
      if c < |issued| {
        assert Accounted(r, issued, waiting, c);
        assert issued'[c] == issued[c];
      } else {
        assert waiting'[|waiting|] == c;
        assert Log(r.logs, c) == [] && c !in r.abandoned;
        assert forall id :: id in r.pending ==> r.pending[id].caller != c;
      }
    }
  }

  lemma TakeFirst(waiting: seq<nat>)
    requires NoDup(waiting) && waiting != []
    ensures NoDup(waiting[1..]) && waiting[0] !in waiting[1..]
    ensures forall c :: c != waiting[0] ==> (c in waiting <==> c in waiting[1..])
  {
    assert waiting == [waiting[0]] + waiting[1..];
  }

  lemma FinalAppended(request: Message, log: seq<Frame>, frame: Frame)
    requires AllDelays(request, log) && FinalFrame(request, frame)
    ensures Finished(request, log + [frame])
  {
    assert (log + [frame])[..|log|] == log;
  }

  lemma AccountedAfterRegister(r: Calls, issued: seq<Message>, waiting: seq<nat>, id: int, c: nat)
    requires Good(r, issued, waiting) && waiting != [] && issued[waiting[0]].RequestId() == Some(id)
    requires c < |issued|
    ensures Accounted(Register(r, id, waiting[0]), issued, waiting[1..], c)
  {
    TakeFirst(waiting);
    assert Accounted(r, issued, waiting, c);
    assert Accounted(r, issued, waiting, waiting[0]);
    if id in r.pending && c == r.pending[id].caller {
      FinalAppended(issued[c], Log(r.logs, c), CancelledFrame(id));
    }
  }

  lemma GoodAfterRegister(r: Calls, issued: seq<Message>, waiting: seq<nat>, id: int)
    requires Good(r, issued, waiting) && waiting != [] && issued[waiting[0]].RequestId() == Some(id)
    ensures Good(Register(r, id, waiting[0]), issued, waiting[1..])
  {
    TakeFirst(waiting);
    forall c | 0 <= c < |issued| ensures Accounted(Register(r, id, waiting[0]), issued, waiting[1..], c) {
      AccountedAfterRegister(r, issued, waiting, id, c);
    }
  }

  lemma GoodAfterRefuse(r: Calls, issued: seq<Message>, waiting: seq<nat>, answered: bool)
    requires Good(r, issued, waiting) && waiting != [] && issued[waiting[0]].RequestId().None?
    ensures Good(Refuse(r, waiting[0], answered), issued, waiting[1..])
  {
    TakeFirst(waiting);
    var r' := Refuse(r, waiting[0], answered);
    forall c | 0 <= c < |issued| ensures Accounted(r', issued, waiting[1..], c) {
      assert Accounted(r, issued, waiting, c);
      if c == waiting[0] {
        FinalAppended(issued[c], [], IdlessFrame());
      }
    }
  }

  lemma GoodAfterDeliver(r: Calls, issued: seq<Message>, waiting: seq<nat>, id: int, frame: Frame)
    requires Good(r, issued, waiting) && id in r.pending
    requires frame.ResponseFrame? && frame.id == Some(id) && frame.body.Some?
    ensures Good(Deliver(r, id, frame), issued, waiting)
  {
    var r' := Deliver(r, id, frame);
    forall c | 0 <= c < |issued| ensures Accounted(r', issued, waiting, c) {
      assert Accounted(r, issued, waiting, c);
      if c == r.pending[id].caller && !frame.IsDelay() {
        FinalAppended(issued[c], Log(r.logs, c), frame);
      }
    }
  }

  lemma GoodAfterExpire(r: Calls, issued: seq<Message>, waiting: seq<nat>, t: nat, errorId: int)
    requires Good(r, issued, waiting) && t in r.timers
    ensures Good(Expire(r, t, TimeoutFrame(errorId)), issued, waiting)
  {
    CallsAndTimersPairUp(r);
    var r' := Expire(r, t, TimeoutFrame(errorId));
    var id := r.timers[t].request;
    forall c | 0 <= c < |issued| ensures Accounted(r', issued, waiting, c) {
      assert Accounted(r, issued, waiting, c);
      if id in r.pending && c == r.pending[id].caller {
        FinalAppended(issued[c], Log(r.logs, c), TimeoutFrame(errorId));
      }
    }
  }

  lemma GoodAfterRestart(r: Calls, issued: seq<Message>, waiting: seq<nat>, t: nat)
    requires Good(r, issued, waiting) && t in r.timers && r.timers[t].updates > 0
    ensures Good(Restart(r, t), issued, waiting)
  {
    forall c | 0 <= c < |issued| ensures Accounted(Restart(r, t), issued, waiting, c) {
      assert Accounted(r, issued, waiting, c);
    }
  }

  lemma GoodAfterCancel(r: Calls, issued: seq<Message>, waiting: seq<nat>, t: nat)
    requires Good(r, issued, waiting) && !Held(r, t)
    ensures Good(Cancel(r, t), issued, waiting)
  {
    forall c | 0 <= c < |issued| ensures Accounted(Cancel(r, t), issued, waiting, c) {
      assert Accounted(r, issued, waiting, c);
    }
  }

  lemma GoodAfterClear(r: Calls, issued: seq<Message>, waiting: seq<nat>)
    requires Good(r, issued, waiting)
    ensures Good(Clear(r), issued, waiting)
  {
    forall c | 0 <= c < |issued| ensures Accounted(Clear(r), issued, waiting, c) {
      assert Accounted(r, issued, waiting, c);
      assert Log(Clear(r).logs, c) == Log(r.logs, c) && !IsPending(Clear(r), issued, c);
      assert c in Clear(r).abandoned <==> c in r.abandoned || c in PendingCallers(r);
      if IsPending(r, issued, c) {
        var id := issued[c].RequestId().value;
        assert id in r.pending && r.pending[id].caller == c;
      }
      if c in PendingCallers(r) {
        var id :| id in r.pending && r.pending[id].caller == c;
        assert issued[c].RequestId() == Some(id);
      }
    }
    assert forall c :: c in PendingCallers(r) ==> c < |issued|;
  }

  // -------------------------------------------------- timers without a call

  /** A timer that fires after its call is gone ends a call exactly when its request id is pending again. */
  lemma StaleTimerExactly(r: Calls, t: nat, frame: Frame)
    requires Coupled(r) && t in r.timers && !Held(r, t)
    ensures Expire(r, t, frame) == Cancel(r, t) <==> r.timers[t].request !in r.pending
  {
    var id := r.timers[t].request;
    if id in r.pending {
      assert id !in Expire(r, t, frame).pending;
    }
  }

  /** With one call per request id, as `new_request` gives them, ids of waiting calls and of timers never meet. */
  ghost predicate OneCallPerId(r: Calls, issued: seq<Message>, waiting: seq<nat>) {
    && (forall c :: 0 <= c < |issued| ==> issued[c].RequestId().Some?)
    && (forall c, c' :: 0 <= c < c' < |issued| ==> issued[c].RequestId() != issued[c'].RequestId())
    && (forall t, c :: t in r.timers && c in waiting && c < |issued| ==>
          issued[c].RequestId() != Some(r.timers[t].request))
    && (forall t :: t in r.timers && r.timers[t].request in r.pending ==>
          r.pending[r.timers[t].request].timer == t)
  }

  lemma StaleTimerIsHarmless(r: Calls, issued: seq<Message>, waiting: seq<nat>, t: nat, frame: Frame)
    requires Good(r, issued, waiting) && OneCallPerId(r, issued, waiting) && t in r.timers && !Held(r, t)
    ensures Expire(r, t, frame) == Cancel(r, t)
  {
    StaleTimerExactly(r, t, frame);
  }

  lemma OneCallPerIdAfterRegister(r: Calls, issued: seq<Message>, waiting: seq<nat>, id: int)
    requires Good(r, issued, waiting) && OneCallPerId(r, issued, waiting)
    requires waiting != [] && issued[waiting[0]].RequestId() == Some(id)
    ensures id !in r.pending
    ensures OneCallPerId(Register(r, id, waiting[0]), issued, waiting[1..])
  {
    TakeFirst(waiting);
    assert Accounted(r, issued, waiting, waiting[0]);
    assert forall i :: i in r.pending ==> r.pending[i].caller != waiting[0];
    assert forall i :: i in r.pending ==> issued[r.pending[i].caller].RequestId() != issued[waiting[0]].RequestId();
    var r' := Register(r, id, waiting[0]);
    forall t, c | t in r'.timers && c in waiting[1..]
      ensures issued[c].RequestId() != Some(r'.timers[t].request)
    {
      assert c in waiting && c != waiting[0];
    }
  }

  lemma OneCallPerIdAfterDeliver(r: Calls, issued: seq<Message>, waiting: seq<nat>, id: int, frame: Frame)
    requires OneCallPerId(r, issued, waiting) && id in r.pending
    ensures OneCallPerId(Deliver(r, id, frame), issued, waiting)
  {
  }
}
