/** What a caller makes of a response channel or of the answer to a subscription. */
module ClientApi {
  import opened Basics
  import opened Wire
  import opened Client
  import ClientSafety
  import ChannelTheorems
  import SubscriptionTheorems
  import Calls = RpcCalls

  datatype CallError = ConnectionClosed | InvalidMessage | RpcError(code: ErrorCode) | ResultTypeMismatch
  datatype Result<+T> = Ok(value: T) | Err(error: CallError)
  datatype CallResponse<+R> = Success(result: R) | Delay(progress: real)

  /** One item of the response stream. */
  function MapFrame<R>(frame: Frame, convert: Value -> Option<R>): Result<CallResponse<R>>
    requires frame.ResponseFrame?
  {
    match frame.body
    case None => Err(InvalidMessage)
    case Some(Error(code)) => Err(RpcError(code))
    case Some(Delay(progress)) => Ok(CallResponse.Delay(progress))
    case Some(Success(value)) =>
      var converted := convert(value);
      if converted.Some? then Ok(CallResponse.Success(converted.value)) else Err(ResultTypeMismatch)
  }

  predicate AllResponses(frames: seq<Frame>) {
    forall k :: 0 <= k < |frames| ==> frames[k].ResponseFrame?
  }

  /** Number of delay frames at the start: the index of the deciding frame, if there is one. */
  function Delays(frames: seq<Frame>): (n: nat)
    ensures n <= |frames|
    ensures forall k :: 0 <= k < n ==> frames[k].IsDelay()
    ensures n < |frames| ==> !frames[n].IsDelay()
  {
    if frames == [] || !frames[0].IsDelay() then 0 else 1 + Delays(frames[1..])
  }

  /** What the deciding frame, or the end of the channel, means for the caller. */
  ghost predicate Decided<R(!new)>(result: Result<R>, frame: Option<Frame>, convert: Value -> Option<R>) {
    && (result == Err(ConnectionClosed) <==> frame.None?)
    && (result == Err(InvalidMessage) <==> frame.Some? && frame.value.ResponseFrame? && frame.value.body.None?)
    && (forall code :: (result == Err(RpcError(code)) <==> frame.Some? && Answers(frame.value, Error(code))))
    && (result == Err(ResultTypeMismatch)
        <==> exists value :: frame.Some? && Answers(frame.value, Body.Success(value)) && convert(value) == None)
    && (forall r ::
          (result == Ok(r)
           <==> exists value ::
                  frame.Some? && Answers(frame.value, Body.Success(value)) && convert(value) == Some(r)))
  }

  predicate Answers(frame: Frame, body: Body) { frame.ResponseFrame? && frame.body == Some(body) }

  /** What became of the command: the channel was closed before, or while sending, or these frames came back. */
  datatype Posting = SenderClosed | SendFailed | Posted(frames: seq<Frame>)
  {
    function Frames(): seq<Frame> { if Posted? then frames else [] }
  }

  /** The response stream of a call, item by item. */
  function ResponseStream<R>(posting: Posting, convert: Value -> Option<R>): seq<Result<CallResponse<R>>>
    requires AllResponses(posting.Frames())
  {
    match posting
    case SenderClosed => []
    case SendFailed => [Err(ConnectionClosed)]
    case Posted(frames) => seq(|frames|, i requires 0 <= i < |frames| => MapFrame(frames[i], convert))
  }

  /** Calls the progress notifier on each delay until the first other item decides the result. */
  method CallRpcMethod<R(!new)>(posting: Posting, convert: Value -> Option<R>, notifies: bool)
    returns (result: Result<R>, progress: seq<real>)
    requires AllResponses(posting.Frames())
    ensures var frames := posting.Frames();
            var n := Delays(frames);
            && |progress| == (if notifies then n else 0)
            && (forall k :: 0 <= k < |progress| ==> progress[k] == frames[k].body.value.progress)
            && Decided(result, if n < |frames| then Some(frames[n]) else None, convert)
    ensures result == Err(ConnectionClosed)
       <==> !posting.Posted? || forall k :: 0 <= k < |posting.frames| ==> posting.frames[k].IsDelay()
  {
    progress := [];
    var stream := ResponseStream(posting, convert);
    var i := 0;
    while i < |stream|
      invariant 0 <= i <= |stream|
      invariant i > 0 ==> posting.Posted?
      invariant forall k :: 0 <= k < i ==> posting.Frames()[k].IsDelay()
      invariant |progress| == (if notifies then i else 0)
      invariant forall k :: 0 <= k < |progress| ==> progress[k] == posting.Frames()[k].body.value.progress
    {
      match stream[i] {
        case Err(e) => return Err(e), progress;
        case Ok(Delay(p)) =>
          if notifies {
            progress := progress + [p];
          }
        case Ok(Success(r)) => return Ok(r), progress;
      }
      i := i + 1;
    }
    result := Err(ConnectionClosed);
  }

  lemma DelaysOnly(request: Message, log: seq<Frame>)
    requires Calls.AllDelays(request, log)
    ensures AllResponses(log) && Delays(log) == |log|
  {
  }

  lemma LastDecides(request: Message, log: seq<Frame>)
    requires Calls.Finished(request, log)
    ensures AllResponses(log) && Delays(log) == |log| - 1 && log[|log| - 1].body.Some?
  {
    assert forall k :: 0 <= k < |log| - 1 ==> log[k] == log[..|log| - 1][k];
  }

  /**
   * For the channel of any call on any run: everything in it is a response the client could parse. Once the
   * channel is closed, its last frame is the deciding one and nothing comes after it, or it holds delays only
   * and the caller gets ConnectionClosed. The second happens exactly when a step let go of the channel unanswered.
   */
  lemma NothingIsLost(lib: Library, run: seq<Action>, c: nat)
    requires c < |After(lib, run).callers.issued| && !ChannelTheorems.Open(After(lib, run), c)
    ensures
      var log := Log(After(lib, run).calls.logs, c);
      var unanswered := exists i :: 0 <= i < |run| && ChannelTheorems.Drops(lib, After(lib, run[..i]), run[i], c);
      && AllResponses(log)
      && (unanswered ==> Delays(log) == |log|)
      && (!unanswered ==> Delays(log) == |log| - 1 && log[|log| - 1].body.Some?)
  {
    ChannelTheorems.UnansweredExactly(lib, run, c);
    var s := After(lib, run);
    var log := Log(s.calls.logs, c);
    if Calls.AllDelays(s.callers.issued[c], log) {
      DelaysOnly(s.callers.issued[c], log);
    } else {
      LastDecides(s.callers.issued[c], log);
    }
  }

  // ------------------------------------------------------------- subscribing

  /** The outcome of `subscribe`, from the first frame of the notification channel. */
  function SubscribeOutcome(first: Option<Frame>): Result<()>
    requires first.Some? ==> first.value.ResponseFrame?
  {
    match first
    case None => Err(ConnectionClosed)
    case Some(ResponseFrame(_, None)) => Err(InvalidMessage)
    case Some(ResponseFrame(_, Some(Error(code)))) => Err(RpcError(code))
    case Some(ResponseFrame(_, Some(Delay(_)))) => Err(InvalidMessage)
    case Some(ResponseFrame(_, Some(Success(_)))) => Ok(())
  }

  /** What the first frame of a notification channel, or its end, means for the caller of `subscribe`. */
  lemma SubscribeDecided(first: Option<Frame>)
    requires first.Some? ==> first.value.ResponseFrame?
    ensures
      var outcome := SubscribeOutcome(first);
      && (outcome == Err(ConnectionClosed) <==> first.None?)
      && (outcome == Err(InvalidMessage)
          <==> first.Some? && (first.value.body.None? || exists progress :: Answers(first.value, Body.Delay(progress))))
      && (forall code :: (outcome == Err(RpcError(code)) <==> first.Some? && Answers(first.value, Error(code))))
      && (outcome == Ok(()) <==> exists value :: first.Some? && Answers(first.value, Body.Success(value)))
  {
    if first.Some? && first.value.body.Some? {
      var body := first.value.body.value;
      match body
      case Delay(progress) => assert Answers(first.value, Body.Delay(progress));
      case Success(value) => assert Answers(first.value, Body.Success(value));
      case Error(code) => assert Answers(first.value, Error(code));
    }
  }

  /**
   * On every run `subscribe` returns a subscriber exactly when its Subscribe was handled while another
   * subscription held the RI, or the answer to its own request was a success. Then it has been confirmed.
   */
  lemma SubscribeSucceedsExactly(lib: Library, run: seq<Action>, sub: nat)
    ensures
      var log := Log(After(lib, run).subs.logs, sub);
      && (log != [] ==> log[0].ResponseFrame?)
      && (log != [] && SubscribeOutcome(Some(log[0])) == Ok(())
          <==> exists i :: 0 <= i < |run| && SubscriptionTheorems.Grants(lib, After(lib, run[..i]), run[i], sub))
    ensures forall i :: 0 <= i < |run| && SubscriptionTheorems.Grants(lib, After(lib, run[..i]), run[i], sub) ==>
              SubscriptionTheorems.HoldsConfirmed(Step(lib, After(lib, run[..i]), run[i]).subs.table, sub)
  {
    FirstFrameIsResponse(lib, run, sub);
    SubscriptionTheorems.FirstFrameSucceedsExactly(lib, run, sub);
    forall i | 0 <= i < |run| && SubscriptionTheorems.Grants(lib, After(lib, run[..i]), run[i], sub)
      ensures SubscriptionTheorems.HoldsConfirmed(Step(lib, After(lib, run[..i]), run[i]).subs.table, sub)
    {
      ClientSafety.InvAlways(lib, run[..i]);
      SubscriptionTheorems.FirstFrameStep(lib, After(lib, run[..i]), run[i], sub);
    }
  }

  /** The first frame in a channel, or the end of it if there is none. */
  function First(log: seq<Frame>): Option<Frame> { if log == [] then None else Some(log[0]) }

  /** Once the channel is closed, `subscribe` fails with ConnectionClosed exactly when a step cut it off unanswered. */
  lemma SubscribeClosedExactly(lib: Library, run: seq<Action>, sub: nat)
    requires sub < After(lib, run).callers.nextSub && !ChannelTheorems.NotificationsOpen(After(lib, run), sub)
    ensures
      var first := First(Log(After(lib, run).subs.logs, sub));
      && (first.Some? ==> first.value.ResponseFrame?)
      && (SubscribeOutcome(first) == Err(ConnectionClosed)
          <==> exists i :: 0 <= i < |run| && ChannelTheorems.CutsOff(After(lib, run[..i]), run[i], sub))
  {
    FirstFrameIsResponse(lib, run, sub);
    SubscribeDecided(First(Log(After(lib, run).subs.logs, sub)));
    ChannelTheorems.SubscriptionUnansweredExactly(lib, run, sub);
    ClosedAndEmpty(After(lib, run), sub);
  }

  lemma ClosedAndEmpty(s: State, sub: nat)
    requires sub < s.callers.nextSub && !ChannelTheorems.NotificationsOpen(s, sub)
    ensures ChannelTheorems.ClosedSilently(s, sub) <==> First(Log(s.subs.logs, sub)).None?
  {
  }

  lemma FirstFrameIsResponse(lib: Library, run: seq<Action>, sub: nat)
    ensures var log := Log(After(lib, run).subs.logs, sub); log != [] ==> log[0].ResponseFrame?
  {
    ClientSafety.InvAlways(lib, run);
  }

  // ------------------------------------------------------ API version check

  /** The first of the two tell-tale nodes under `.broker` decides; neither means SHV 3. */
  function DetectVersion(nodes: seq<string>): ApiVersion {
    if nodes == [] || nodes[0] == "client" then V3
    else if nodes[0] == "clients" then V2
    else DetectVersion(nodes[1..])
  }

  lemma {:induction false} V2Exactly(nodes: seq<string>)
    ensures DetectVersion(nodes).V2?
       <==> exists i :: 0 <= i < |nodes| && nodes[i] == "clients" && forall k :: 0 <= k < i ==> nodes[k] != "client"
  {
    if nodes != [] && nodes[0] != "client" && nodes[0] != "clients" {
      V2Exactly(nodes[1..]);
      if i :| 0 <= i < |nodes| && nodes[i] == "clients" && forall k :: 0 <= k < i ==> nodes[k] != "client" {
        assert nodes[1..][i - 1] == "clients";
      }
      if i :| 0 <= i < |nodes| - 1 && nodes[1..][i] == "clients"
              && forall k :: 0 <= k < i ==> nodes[1..][k] != "client" {
        assert nodes[i + 1] == "clients";
        assert forall k :: 0 < k < i + 1 ==> nodes[k] == nodes[1..][k - 1];
      }
    }
  }
}
