/** What single steps of the client loop do, in terms of requests, responses and commands. */
module StepTheorems {
  import opened Basics
  import opened Wire
  import opened Client
  import opened ClientSafety
  import Calls = RpcCalls
  import Subs = Subscriptions
  import ClientNode
  import Paths

  /** One more message in the command queue, and nothing else. */
  predicate Posts(s: State, s': State, message: Message, origin: Origin) {
    s' == s.(cmds := s.cmds + [SendMessage(message, origin)])
  }

  predicate Replies(s: State, s': State, id: int, body: Body) {
    Posts(s, s', Response(Some(id), body), Reply)
  }

  function Received(lib: Library, s: State, frame: Frame): State {
    Step(lib, s, NextEvent(RpcFrameReceived(frame)))
  }

  // ------------------------------------------------------------------ requests

  /** Components are the text between the slashes; the empty path has none. */
  lemma ComponentsOfText(path: string)
    ensures ClientNode.Components(path) == [] <==> path == ""
    ensures path != "" ==> Paths.Join(ClientNode.Components(path)) == path
  {
    Paths.JoinSplit(path);
  }

  /** There is a mount below the path. */
  predicate Inside(mounts: seq<Path>, path: Path) {
    exists m :: m in mounts && path < m
  }

  /** The longest of the mounts that the path begins with. */
  predicate LongestAbove(mounts: seq<Path>, path: Path, m: Path) {
    m in mounts && m <= path && forall other :: other in mounts && other <= path ==> other <= m
  }

  predicate SomeAbove(mounts: seq<Path>, path: Path) {
    exists m :: m in mounts && m <= path
  }

  /** The client itself answers `ls` above a mount, and `dir` there unless the path is a mount too. */
  predicate AnsweredHere(mounts: seq<Path>, path: Path, meth: string) {
    Inside(mounts, path) && (meth == "ls" || (meth == "dir" && path !in mounts))
  }

  /** The names that follow the path in the mounts below it, or whether one of them does. */
  ghost predicate ListsBelow(mounts: seq<Path>, path: Path, ls: LsParam, value: Value) {
    match ls
    case List =>
      && value.Names? && NoDup(value.names)
      && forall name :: name in value.names <==> exists m :: m in mounts && path < m && m[|path|] == name
    case LsExists(child) => value == Bool(exists m :: m in mounts && path < m && m[|path|] == child)
  }

  lemma AboveIsMounted(mounts: seq<Path>, path: Path)
    ensures SomeAbove(mounts, path) <==> ClientNode.Mounted(mounts, path)
  {
    if m :| m in mounts && m <= path {
      assert path[..|m|] == m;
    }
    if n :| 0 <= n <= |path| && path[..n] in mounts {
      assert path[..n] <= path;
    }
  }

  /** What becomes of a request in terms of the mount table: the routing and the effect of it. */
  lemma RequestStep(lib: Library, s: State, frame: Frame)
    requires s.status.Running? && frame.RequestFrame?
    ensures
      var s', path, mounts := Received(lib, s, frame), ClientNode.Components(frame.path), lib.mounts;
      && (!frame.parses ==> s' == s)
      && (frame.parses && frame.access.None? ==> Replies(s, s', frame.requestId, Error(InvalidRequest)))
      && (frame.parses && frame.access.Some? && !AnsweredHere(mounts, path, frame.meth) && !SomeAbove(mounts, path) ==>
            Replies(s, s', frame.requestId, Error(MethodNotFound)))
  {
    var path := ClientNode.Components(frame.path);
    AboveIsMounted(lib.mounts, path);
    ClientNode.RouteExactly(lib, frame);
  }

  /** A request no one here answers goes to the longest mount above it, once, with the rest of the path. */
  lemma RequestIsDispatched(lib: Library, s: State, frame: Frame) returns (m: Path)
    requires s.status.Running? && frame.RequestFrame? && frame.parses && frame.access.Some?
    requires var path := ClientNode.Components(frame.path);
             !AnsweredHere(lib.mounts, path, frame.meth) && SomeAbove(lib.mounts, path)
    ensures
      var s', path := Received(lib, s, frame), ClientNode.Components(frame.path);
      && LongestAbove(lib.mounts, path, m)
      && s' == s.(out := s.out.(tasks := s.out.tasks + [Task(m, path[|m|..], frame)]))
  {
    var path := ClientNode.Components(frame.path);
    AboveIsMounted(lib.mounts, path);
    ClientNode.RouteExactly(lib, frame);
    ClientNode.DispatchIsLongestMount(lib, frame);
    m := ClientNode.Route(lib, frame).mount;
    var rest := ClientNode.Route(lib, frame).rest;
    assert m + rest == path;
    assert rest == path[|m|..];
  }

  /** `dir` above a mount is answered with the two methods every node has. */
  lemma DirIsAnsweredHere(lib: Library, s: State, frame: Frame) returns (value: Value)
    requires s.status.Running? && frame.RequestFrame? && frame.parses && frame.access.Some? && frame.meth == "dir"
    requires AnsweredHere(lib.mounts, ClientNode.Components(frame.path), "dir")
    ensures Replies(s, Received(lib, s, frame), frame.requestId, Success(value))
    ensures var list := [MetaMethod("dir", 1, "DirParam")] + [MetaMethod("ls", 1, "LsParam")];
            ClientNode.Describes(value, lib.dirParam(frame.param), list)
  {
    ClientNode.RouteExactly(lib, frame);
    var list := [MetaMethod("dir", 1, "DirParam")] + [MetaMethod("ls", 1, "LsParam")];
    assert list == ClientNode.DIR_LS_METHODS;
    ClientNode.BuiltinDirDescribes(list, lib.dirParam(frame.param));
    value := ClientNode.BuiltinDir(ClientNode.DIR_LS_METHODS, lib.dirParam(frame.param));
  }

  /** `ls` above a mount is answered with exactly the next components below, or the membership asked for. */
  lemma LsIsAnsweredHere(lib: Library, s: State, frame: Frame) returns (value: Value)
    requires s.status.Running? && frame.RequestFrame? && frame.parses && frame.access.Some? && frame.meth == "ls"
    requires Inside(lib.mounts, ClientNode.Components(frame.path))
    ensures Replies(s, Received(lib, s, frame), frame.requestId, Success(value))
    ensures ListsBelow(lib.mounts, ClientNode.Components(frame.path), lib.lsParam(frame.param), value)
  {
    ClientNode.RouteExactly(lib, frame);
    var names := ClientNode.NextComponents(lib.mounts, ClientNode.Components(frame.path));
    value := ClientNode.LsChildrenToResult(Some(names), lib.lsParam(frame.param)).value;
  }

  // ----------------------------------------------------------------- responses

  /** A response that cannot be parsed is reported back; one without an id, or with one nobody waits for, is ignored. */
  lemma StrayResponseStep(lib: Library, s: State, frame: Frame)
    requires s.status.Running? && frame.ResponseFrame?
    ensures
      var s' := Received(lib, s, frame);
      && (frame.id.None? ==> s' == s)
      && (frame.id.Some? && frame.body.None? ==> Replies(s, s', frame.id.value, Error(ParseError)))
      && (frame.id.Some? && frame.body.Some? ==>
            frame.id.value in s.calls.pending || frame.id.value in s.subs.requests || s' == s)
  {
  }

  /** A frame that is no request, response or signal is ignored. */
  lemma OtherFrameStep(lib: Library, s: State)
    ensures s.status.Running? ==> Received(lib, s, OtherFrame) == s
  {
  }

  // -------------------------------------------------------------------- events

  /** A heartbeat is answered with one ping, addressed as the API version has it; with nothing while it is unknown. */
  lemma HeartbeatStep(lib: Library, s: State)
    requires s.status.Running?
    ensures
      var s' := Step(lib, s, NextEvent(HeartbeatTimeout));
      && (s.version.None? ==> s' == s)
      && (s.version == Some(V2) ==>
            Posts(s.(nextId := s.nextId + 1), s', Request(Some(s.nextId), ".broker/app", "ping", NoParam), Heartbeat))
      && (s.version == Some(V3) ==>
            Posts(s.(nextId := s.nextId + 1), s', Request(Some(s.nextId), ".app", "ping", NoParam), Heartbeat))
  {
  }

  /** A disconnect forgets every call, timer, subscription and request, and writes into no channel. */
  lemma DisconnectStep(lib: Library, s: State)
    requires s.status.Running?
    ensures
      var s' := Step(lib, s, NextEvent(Disconnected));
      && s'.calls.pending == map[] && s'.calls.timers == map[] && s'.subs.table == [] && s'.subs.requests == map[]
      && s'.conn.None? && s'.calls.logs == s.calls.logs && s'.subs.logs == s.subs.logs
      && s'.cmds == s.cmds && s'.sent == s.sent && s'.version == s.version
  {
  }

  // ------------------------------------------------------------------ commands

  /** The RI a Subscribe enters under the version. */
  function Entered(version: ApiVersion, ri: Ri): Ri {
    if version.V2? then Ri(ri.path, "*", ri.signal) else ri
  }

  /** The library finds nothing wrong with it, and it names a signal. */
  predicate Acceptable(lib: Library, version: ApiVersion, ri: Ri) {
    && (version.V2? ==> lib.validRi(ri.path, "*", ri.signal))
    && ri.signal.Some? && lib.validGlob(Entered(version, ri))
  }

  lemma AcceptedIsAcceptable(lib: Library, version: ApiVersion, ri: Ri)
    ensures Subs.AcceptedRi(lib, version, ri)
         == if Acceptable(lib, version, ri) then Some(Entered(version, ri)) else None
  {
  }

  /**
   * Handling a Subscribe in a reachable state: refused while the version is unknown, refused if the parameters are
   * not acceptable, confirmed at once if the RI is held, and otherwise entered unconfirmed with one request for it.
   */
  lemma SubscribeStep(lib: Library, s: State, ri: Ri, sub: nat)
    requires Inv(s) && s.status.Running? && s.cmds != [] && s.cmds[0] == Subscribe(ri, sub)
    ensures
      var s' := Step(lib, s, NextCommand);
      var table, log := s.subs.table, Log(s'.subs.logs, sub);
      if s.version.None? then
        log == [ErrorFrame(s.nextId, InternalError)] && s'.subs.table == table && s'.cmds == s.cmds[1..]
      else if !Acceptable(lib, s.version.value, ri) then
        log == [ErrorFrame(s.nextId, InvalidParam)] && s'.subs.table == table && s'.cmds == s.cmds[1..]
      else
        var entered := Entered(s.version.value, ri);
        if exists k :: 0 <= k < |table| && table[k].ri == entered then
          && log == [OkFrame(s.nextId)] && s'.subs.table == table + [Subs.Entry(true, sub, entered)]
          && s'.cmds == s.cmds[1..]
        else
          && log == [] && s'.subs.table == table + [Subs.Entry(false, sub, entered)]
          && s'.subs.requests == s.subs.requests[s.nextId := sub]
          && |s'.cmds| == |s.cmds| && s'.cmds[..|s.cmds| - 1] == s.cmds[1..]
          && s'.cmds[|s.cmds| - 1].SendMessage?
          && var m := s'.cmds[|s.cmds| - 1].message;
             m.RequestId() == Some(s.nextId)
             && Subs.ReadRequest(m) == Some((Subs.Subscribing, Subs.KeyOf(s.version.value, entered)))
  {
    SubscribedIdIsNew(s);
    PopWaiting(s);
    assert WaitingSubs(s)[0] == sub;
    if s.version.Some? {
      AcceptedIsAcceptable(lib, s.version.value, ri);
      Subs.RequestReadsBack(Entered(s.version.value, ri), Subs.Subscribing, s.version.value, s.nextId);
    }
  }

  /**
   * Handling an RpcCall whose request id is pending ends the earlier call with an InternalError as its last frame,
   * and the new call takes its place.
   */
  lemma ReusedIdCancels(lib: Library, s: State, id: int, request: Message, c: nat)
    requires Inv(s) && s.status.Running? && s.cmds != [] && s.cmds[0] == RpcCall(request, c)
    requires request.RequestId() == Some(id) && id in s.calls.pending
    ensures
      var s', first := Step(lib, s, NextCommand), s.calls.pending[id].caller;
      && first != c
      && Log(s'.calls.logs, first) == Log(s.calls.logs, first) + [ResponseFrame(Some(id), Some(Error(InternalError)))]
      && id in s'.calls.pending && s'.calls.pending[id].caller == c && Log(s'.calls.logs, c) == []
      && s'.cmds == s.cmds[1..] + [SendMessage(request, FromCall)]
  {
    PopWaiting(s);
    assert WaitingCalls(s)[0] == c;
    assert Calls.Accounted(s.calls, s.callers.issued, WaitingCalls(s), c);
    assert s.callers.issued[s.calls.pending[id].caller].RequestId() == Some(id);
  }

  // -------------------------------------------------------------------- timers

  /** A timer that sees an update consumes it and runs on; one that sees its channel closed goes, and nothing else. */
  lemma TimerSteps(lib: Library, s: State, t: nat)
    requires s.status.Running? && t in s.calls.timers
    ensures
      var n := s.calls.timers[t].updates;
      && (n > 0 ==>
            Step(lib, s, TimerUpdated(t))
            == s.(calls := s.calls.(timers := s.calls.timers[t := s.calls.timers[t].(updates := n - 1)])))
      && (n == 0 && (forall id :: id in s.calls.pending ==> s.calls.pending[id].timer != t) ==>
            Step(lib, s, TimerClosed(t)) == s.(calls := s.calls.(timers := s.calls.timers - {t})))
  {
  }
}
