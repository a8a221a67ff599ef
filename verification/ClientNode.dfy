/** Request routing over the mount table, and the method tables of static and dynamic nodes. */
module ClientNode {
  import opened Basics
  import opened Wire
  import Paths

  const METH_DIR := "dir"
  const METH_LS := "ls"
  const BROWSE: int := 1
  const META_METHOD_DIR := MetaMethod(METH_DIR, BROWSE, "DirParam")
  const META_METHOD_LS := MetaMethod(METH_LS, BROWSE, "LsParam")
  const DIR_LS_METHODS: seq<MetaMethod> := [META_METHOD_DIR, META_METHOD_LS]

  // ---------------------------------------------------------------- mounts

  /** The components of a path; the empty path is the root. */
  function Components(path: string): Path {
    if path == "" then [] else Paths.Split(path)
  }

  /** `find_longest_path_prefix`: tries the first `n` components, then one fewer. */
  function LongestMount(mounts: seq<Path>, path: Path, n: nat): (r: Option<nat>)
    requires n <= |path|
    ensures r.Some? ==> r.value <= n && path[..r.value] in mounts
    ensures r.Some? ==> forall k :: r.value < k <= n ==> path[..k] !in mounts
    ensures r.None? ==> forall k :: 0 <= k <= n ==> path[..k] !in mounts
  {
    if path[..n] in mounts then Some(n) else if n == 0 then None else LongestMount(mounts, path, n - 1)
  }

  /** Components that follow `path` in the mounts below it, first occurrences in table order. */
  function NextComponents(mounts: seq<Path>, path: Path): (names: seq<string>)
    ensures forall name :: name in names <==> exists m :: m in mounts && path < m && m[|path|] == name
    ensures NoDup(names)
  {
    if mounts == [] then []
    else
      var init, m := mounts[..|mounts| - 1], mounts[|mounts| - 1];
      var names := NextComponents(init, path);
      assert forall m' :: m' in mounts <==> m' in init || m' == m;
      if path < m && m[|path|] !in names then names + [m[|path|]] else names
  }

  predicate InTree(mounts: seq<Path>, path: Path) {
    exists m :: m in mounts && path <= m
  }

  function ChildrenOnPath(mounts: seq<Path>, path: Path): Option<seq<string>> {
    if InTree(mounts, path) then Some(NextComponents(mounts, path)) else None
  }

  function BuiltinDir(methods: seq<MetaMethod>, param: DirParam): Value {
    match param
    case Brief => Methods(false, methods)
    case Full => Methods(true, methods)
    case DirExists(name) =>
      var found := Lookup(methods, name);
      if found.None? then Bool(false) else OneMethod(found.value)
  }

  function LsChildrenToResult(children: Option<seq<string>>, param: LsParam): Body {
    match children
    case None => Error(MethodCallException)
    case Some(names) =>
      match param
      case List => Success(Names(names))
      case LsExists(child) => Success(Bool(child in names))
  }

  function BuiltinLs(param: LsParam): Value {
    if param.List? then Names([]) else Bool(false)
  }

  /** Answers `dir`/`ls` from the mount table; None leaves the request to a node. */
  function ProcessLocalDirLs(lib: Library, frame: Frame): Option<Body>
    requires frame.RequestFrame?
  {
    if frame.access.None? then Some(Error(InvalidRequest))
    else if frame.meth != METH_DIR && frame.meth != METH_LS then None
    else
      var path := Components(frame.path);
      var mount := LongestMount(lib.mounts, path, |path|);
      var children := ChildrenOnPath(lib.mounts, path);
      var isLeaf := if children.Some? then children.value == [] else mount.Some?;
      if children.None? && mount.None? then Some(Error(MethodNotFound))
      else if frame.meth == METH_DIR && children.Some? && !(mount.Some? && mount.value == |path|) then
        if frame.parses then Some(Success(BuiltinDir(DIR_LS_METHODS, lib.dirParam(frame.param))))
        else Some(Error(InvalidRequest))
      else if frame.meth == METH_LS && !isLeaf then
        if frame.parses then Some(LsChildrenToResult(children, lib.lsParam(frame.param)))
        else Some(Error(InvalidRequest))
      else None
  }

  datatype Outcome = Answer(body: Body) | Dispatch(mount: Path, rest: Path) | Ignored

  /** What the client loop does with a request frame. */
  function Route(lib: Library, frame: Frame): Outcome
    requires frame.RequestFrame?
  {
    if !frame.parses then Ignored
    else
      var local := ProcessLocalDirLs(lib, frame);
      if local.Some? then Answer(local.value)
      else
        var path := Components(frame.path);
        var mount := LongestMount(lib.mounts, path, |path|);
        if mount.Some? then Dispatch(path[..mount.value], path[mount.value..]) else Answer(Error(MethodNotFound))
  }

  predicate Mounted(mounts: seq<Path>, path: Path) {
    exists n :: 0 <= n <= |path| && path[..n] in mounts
  }

  predicate HasMountBelow(mounts: seq<Path>, path: Path) {
    exists m :: m in mounts && path < m
  }

  lemma LongestMountFacts(mounts: seq<Path>, path: Path)
    ensures LongestMount(mounts, path, |path|).Some? <==> Mounted(mounts, path)
    ensures LongestMount(mounts, path, |path|) == Some(|path|) <==> path in mounts
    ensures path in mounts ==> Mounted(mounts, path)
  {
    assert path[..|path|] == path;
  }

  lemma TreeFacts(mounts: seq<Path>, path: Path)
    ensures InTree(mounts, path) <==> path in mounts || HasMountBelow(mounts, path)
    ensures HasMountBelow(mounts, path) <==> NextComponents(mounts, path) != []
  {
    var names := NextComponents(mounts, path);
    assert forall m :: m in mounts && path <= m ==> m == path || path < m by {
      assert forall m: Path :: path <= m && |m| == |path| ==> m == path;
    }
    if m :| m in mounts && path < m {
      assert m[|path|] in names;
    }
    if names != [] {
      assert names[0] in names;
    }
  }

  /** The request is one the local resolver lists or describes itself. */
  predicate LocalRequest(mounts: seq<Path>, path: Path, meth: string) {
    || (meth == METH_DIR && path !in mounts && HasMountBelow(mounts, path))
    || (meth == METH_LS && HasMountBelow(mounts, path))
  }

  /** Routing is total and unambiguous: which of the answers a request gets is decided by the mounts alone. */
  lemma RouteExactly(lib: Library, frame: Frame)
    requires frame.RequestFrame?
    ensures
      var path, outcome := Components(frame.path), Route(lib, frame);
      var dirOrLs := frame.meth == METH_DIR || frame.meth == METH_LS;
      var local := LocalRequest(lib.mounts, path, frame.meth);
      && (outcome.Ignored? <==> !frame.parses)
      && (frame.parses ==>
            && (outcome == Answer(Error(InvalidRequest)) <==> frame.access.None?)
            && (frame.access.Some? ==>
                  && (outcome.Dispatch? <==> !local && Mounted(lib.mounts, path))
                  && (outcome == Answer(Error(MethodNotFound)) <==> !local && !Mounted(lib.mounts, path))
                  && (local && frame.meth == METH_DIR ==>
                        outcome == Answer(Success(BuiltinDir(DIR_LS_METHODS, lib.dirParam(frame.param)))))
                  && (local && frame.meth == METH_LS ==>
                        outcome == Answer(LsChildrenToResult(Some(NextComponents(lib.mounts, path)),
                                                             lib.lsParam(frame.param)))))
            // dir and ls that the local resolver declines always have a mount to go to
            && (dirOrLs && ProcessLocalDirLs(lib, frame).None? ==> outcome.Dispatch?))
  {
    LongestMountFacts(lib.mounts, Components(frame.path));
    TreeFacts(lib.mounts, Components(frame.path));
  }

  /** A dispatched request goes to a mounted node, the longest one, with exactly the remaining path. */
  lemma DispatchIsLongestMount(lib: Library, frame: Frame)
    requires frame.RequestFrame? && Route(lib, frame).Dispatch?
    ensures
      var d := Route(lib, frame);
      && d.mount in lib.mounts
      && d.mount + d.rest == Components(frame.path)
      && forall m :: m in lib.mounts && m <= Components(frame.path) ==> m <= d.mount
  {
    var path := Components(frame.path);
    var n := LongestMount(lib.mounts, path, |path|).value;
    forall m | m in lib.mounts && m <= path ensures m <= path[..n] {
      assert m == path[..|m|];
    }
  }

  /** A local `ls` lists exactly the next components of the mounts below the path; its Exists form agrees. */
  lemma LocalLs(lib: Library, frame: Frame, child: string)
    requires frame.RequestFrame? && frame.parses && frame.access.Some? && frame.meth == METH_LS
    requires HasMountBelow(lib.mounts, Components(frame.path))
    ensures
      var path := Components(frame.path);
      var below := exists m :: m in lib.mounts && path < m && m[|path|] == child;
      && (lib.lsParam(frame.param).List? ==>
            && Route(lib, frame).Answer? && Route(lib, frame).body.Success? && Route(lib, frame).body.value.Names?
            && NoDup(Route(lib, frame).body.value.names)
            && (child in Route(lib, frame).body.value.names <==> below))
      && (lib.lsParam(frame.param) == LsExists(child) ==> Route(lib, frame) == Answer(Success(Bool(below))))
  {
    RouteExactly(lib, frame);
  }

  // ------------------------------------------------- the tests' mount tables

  lemma OneMoreMount(mounts: seq<Path>, m: Path, path: Path)
    ensures NextComponents(mounts + [m], path)
         == var names := NextComponents(mounts, path);
            if path < m && m[|path|] !in names then names + [m[|path|]] else names
  {
    var all := mounts + [m];
    assert all[..|all| - 1] == mounts && all[|all| - 1] == m;
  }

  /** The next component of one mount, unless the names have it already. */
  function WithNext(names: seq<string>, m: Path, path: Path): seq<string> {
    if path < m && m[|path|] !in names then names + [m[|path|]] else names
  }

  lemma FourMounts(a: Path, b: Path, c: Path, d: Path, path: Path)
    ensures NextComponents([a, b, c, d], path)
         == WithNext(WithNext(WithNext(WithNext([], a, path), b, path), c, path), d, path)
  {
    var m0: seq<Path> := [];
    OneMoreMount(m0, a, path);
    OneMoreMount(m0 + [a], b, path);
    OneMoreMount(m0 + [a] + [b], c, path);
    OneMoreMount(m0 + [a] + [b] + [c], d, path);
    assert m0 + [a] + [b] + [c] + [d] == [a, b, c, d];
  }

  /** The two shvrpc functions give what the repository's own tests expect of them on normalised paths. */
  lemma LongestMountAgreesWithTests()
    ensures
      var mounts := [[], ["foo"], ["foo", "bar"], ["x"]];
      && LongestMount(mounts, [], 0) == Some(0)
      && LongestMount(mounts, ["blah"], 1) == Some(0)
      && LongestMount(mounts, ["foo", "blah"], 2) == Some(1)
  {
    assert ["foo", "blah"][..2] == ["foo", "blah"] && ["foo", "blah"][..1] == ["foo"] && ["blah"][..1] == ["blah"];
    assert ["foo", "bar"] != ["foo", "blah"] by {
      assert ["foo", "bar"][1] != ["foo", "blah"][1];
    }
  }

  lemma NextAgreesWithRootedTest()
    ensures
      var rooted := [[], ["foo", "bar"], ["foo", "x"], ["x"]];
      && NextComponents(rooted, []) == ["foo", "x"]
      && NextComponents(rooted, ["foo"]) == ["bar", "x"]
      && NextComponents(rooted, ["foo", "x"]) == []
  {
    FourMounts([], ["foo", "bar"], ["foo", "x"], ["x"], []);
    FourMounts([], ["foo", "bar"], ["foo", "x"], ["x"], ["foo"]);
    FourMounts([], ["foo", "bar"], ["foo", "x"], ["x"], ["foo", "x"]);
  }

  lemma NextAgreesWithRootlessTest()
    ensures
      var rootless := [["foo"], ["foo", "bar"], ["foo", "x", "y"], ["z"]];
      && NextComponents(rootless, []) == ["foo", "z"]
      && NextComponents(rootless, ["foo"]) == ["bar", "x"]
      && NextComponents(rootless, ["foo", "x"]) == ["y"]
      && NextComponents(rootless, ["foo", "x", "y"]) == []
  {
    FourMounts(["foo"], ["foo", "bar"], ["foo", "x", "y"], ["z"], []);
    FourMounts(["foo"], ["foo", "bar"], ["foo", "x", "y"], ["z"], ["foo"]);
    FourMounts(["foo"], ["foo", "bar"], ["foo", "x", "y"], ["z"], ["foo", "x"]);
    FourMounts(["foo"], ["foo", "bar"], ["foo", "x", "y"], ["z"], ["foo", "x", "y"]);
  }

  // --------------------------------------------------------- method tables

  /** First entry with the name. */
  function Lookup(methods: seq<MetaMethod>, name: string): (r: Option<MetaMethod>)
    ensures r.Some? <==> exists m :: m in methods && m.name == name
    ensures r.Some? ==> r.value in methods && r.value.name == name
  {
    if methods == [] then None
    else if methods[0].name == name then Some(methods[0])
    else Lookup(methods[1..], name)
  }

  function IndexOf(methods: seq<MetaMethod>, name: string): (i: int)
    ensures -1 <= i < |methods|
    ensures i == -1 <==> Lookup(methods, name).None?
    ensures i >= 0 ==> Lookup(methods, name) == Some(methods[i])
  {
    if methods == [] then -1
    else if methods[0].name == name then 0
    else var i := IndexOf(methods[1..], name); if i < 0 then -1 else i + 1
  }

  /** The methods other than `dir` and `ls`, in order. */
  function Others(methods: seq<MetaMethod>): seq<MetaMethod> {
    if methods == [] then []
    else if methods[0].name == METH_DIR || methods[0].name == METH_LS then Others(methods[1..])
    else [methods[0]] + Others(methods[1..])
  }

  function LookupOr(methods: seq<MetaMethod>, name: string, default: MetaMethod): MetaMethod {
    var found := Lookup(methods, name);
    if found.Some? then found.value else default
  }

  /** The general construction: `dir`, `ls` (application's or default), then the rest. */
  function DirLsFirst(methods: seq<MetaMethod>): seq<MetaMethod> {
    [LookupOr(methods, METH_DIR, META_METHOD_DIR), LookupOr(methods, METH_LS, META_METHOD_LS)] + Others(methods)
  }

  /** The table a dynamic node's `dir` reports, with the shortcut for tables already in order. */
  function AllMethods(methods: seq<MetaMethod>): seq<MetaMethod> {
    if methods == [] then DIR_LS_METHODS
    else if IndexOf(methods, METH_DIR) == 0 && IndexOf(methods, METH_LS) == 1 then methods
    else DirLsFirst(methods)
  }

  lemma {:induction false} LookupInOthers(methods: seq<MetaMethod>, name: string)
    requires name != METH_DIR && name != METH_LS
    ensures Lookup(Others(methods), name) == Lookup(methods, name)
  {
    if methods != [] {
      LookupInOthers(methods[1..], name);
      if methods[0].name != METH_DIR && methods[0].name != METH_LS {
        assert Others(methods)[1..] == Others(methods[1..]);
      }
    }
  }

  lemma {:induction false} OthersOfOthers(methods: seq<MetaMethod>)
    ensures Others(Others(methods)) == Others(methods)
    ensures Lookup(Others(methods), METH_DIR).None? && Lookup(Others(methods), METH_LS).None?
  {
    if methods != [] {
      OthersOfOthers(methods[1..]);
      if methods[0].name != METH_DIR && methods[0].name != METH_LS {
        assert Others(methods)[1..] == Others(methods[1..]);
      }
    }
  }

  lemma InOrderShape(methods: seq<MetaMethod>)
    requires IndexOf(methods, METH_DIR) == 0 && IndexOf(methods, METH_LS) == 1
    ensures |methods| >= 2 && methods[0].name == METH_DIR && methods[1].name == METH_LS
    ensures Others(methods) == Others(methods[2..])
  {
    assert methods[1..][1..] == methods[2..];
  }

  lemma GeneralShape(methods: seq<MetaMethod>)
    ensures var r := DirLsFirst(methods); r[1..][1..] == Others(methods)
    ensures Others(DirLsFirst(methods)) == Others(methods)
  {
    var r := DirLsFirst(methods);
    assert r[1..][1..] == Others(methods);
    assert r[1..][0] == r[1];
    OthersOfOthers(methods);
  }

  /**
   * `dir` then `ls` come first, the others keep their order, every name is looked up to the same entry
   * (with the defaults where the application gives none), and doing it twice changes nothing.
   */
  lemma AllMethodsNormalises(methods: seq<MetaMethod>, name: string)
    ensures
      var r := AllMethods(methods);
      && |r| >= 2 && r[0].name == METH_DIR && r[1].name == METH_LS
      && Others(r) == Others(methods)
      && r[0] == LookupOr(methods, METH_DIR, META_METHOD_DIR)
      && r[1] == LookupOr(methods, METH_LS, META_METHOD_LS)
      && (name != METH_DIR && name != METH_LS ==> Lookup(r, name) == Lookup(methods, name))
      && Lookup(r, METH_DIR) == Some(r[0]) && Lookup(r, METH_LS) == Some(r[1])
      && AllMethods(r) == r
  {
    var r := AllMethods(methods);
    if methods != [] && IndexOf(methods, METH_DIR) == 0 && IndexOf(methods, METH_LS) == 1 {
      InOrderShape(methods);
    } else {
      GeneralShape(methods);
      assert r == DirLsFirst(methods);
      assert r[1..][0] == r[1];
      assert IndexOf(r[1..], METH_LS) == 0;
      if name != METH_DIR && name != METH_LS {
        LookupInOthers(methods, name);
      }
    }
  }

  predicate Reserved(name: string) { name == METH_DIR || name == METH_LS }

  lemma {:induction false} OthersKeepsAllExactly(methods: seq<MetaMethod>)
    ensures |Others(methods)| <= |methods|
    ensures Others(methods) == methods <==> NoneReserved(methods)
  {
    if methods != [] {
      OthersKeepsAllExactly(methods[1..]);
      if Others(methods) == methods {
        assert methods[1..] == Others(methods)[1..];
        assert forall i :: 0 < i < |methods| ==> methods[i] == methods[1..][i - 1];
      }
    }
  }

  /**
   * The shortcut gives what the general construction gives exactly when neither `dir` nor `ls` occurs again
   * after the first two entries, so in particular whenever names are unique.
   */
  lemma ShortcutAgreesExactly(methods: seq<MetaMethod>)
    requires IndexOf(methods, METH_DIR) == 0 && IndexOf(methods, METH_LS) == 1
    ensures AllMethods(methods) == DirLsFirst(methods)
       <==> forall i :: 2 <= i < |methods| ==> !Reserved(methods[i].name)
  {
    InOrderGeneral(methods);
    OthersKeepsAllExactly(methods[2..]);
    SameAfterTwo(methods[0], methods[1], methods[2..], Others(methods[2..]));
    NoneReservedAfterTwo(methods);
  }

  /** With a second `dir` further down the shortcut keeps it, and the general construction would not. */
  lemma ShortcutKeepsSecondDir()
    ensures
      var methods := [META_METHOD_DIR, META_METHOD_LS, MetaMethod(METH_DIR, 0, "")];
      AllMethods(methods) == methods && DirLsFirst(methods) == DIR_LS_METHODS
  {
    var methods := [META_METHOD_DIR, META_METHOD_LS, MetaMethod(METH_DIR, 0, "")];
    assert methods[1..] == [META_METHOD_LS, MetaMethod(METH_DIR, 0, "")];
    assert methods[2..] == [MetaMethod(METH_DIR, 0, "")];
    assert IndexOf(methods[1..], METH_LS) == 0;
    InOrderGeneral(methods);
    assert Others(methods[2..]) == [];
  }

  lemma SplitTwo(methods: seq<MetaMethod>)
    requires |methods| >= 2
    ensures methods == [methods[0], methods[1]] + methods[2..]
  {
  }

  lemma InOrderGeneral(methods: seq<MetaMethod>)
    requires IndexOf(methods, METH_DIR) == 0 && IndexOf(methods, METH_LS) == 1
    ensures |methods| >= 2 && AllMethods(methods) == [methods[0], methods[1]] + methods[2..]
    ensures DirLsFirst(methods) == [methods[0], methods[1]] + Others(methods[2..])
  {
    InOrderShape(methods);
    SplitTwo(methods);
    assert LookupOr(methods, METH_DIR, META_METHOD_DIR) == methods[0];
    assert LookupOr(methods, METH_LS, META_METHOD_LS) == methods[1];
  }

  predicate NoneReserved(methods: seq<MetaMethod>) {
    forall i :: 0 <= i < |methods| ==> !Reserved(methods[i].name)
  }

  lemma NoneReservedAfterTwo(methods: seq<MetaMethod>)
    requires |methods| >= 2
    ensures NoneReserved(methods[2..]) <==> forall i :: 2 <= i < |methods| ==> !Reserved(methods[i].name)
  {
    var rest := methods[2..];
    if NoneReserved(rest) {
      forall i | 2 <= i < |methods| ensures !Reserved(methods[i].name) {
        assert rest[i - 2] == methods[i];
      }
    }
  }

  lemma SameAfterTwo(x: MetaMethod, y: MetaMethod, s: seq<MetaMethod>, t: seq<MetaMethod>)
    ensures [x, y] + s == [x, y] + t <==> s == t
  {
    assert s == ([x, y] + s)[2..] && t == ([x, y] + t)[2..];
  }

  // ---------------------------------------------------------- access checks

  function CheckAccess(level: Option<int>, meth: MetaMethod): Option<ErrorCode> {
    if (if level.Some? then level.value else 0) >= meth.access then None else Some(PermissionDenied)
  }

  function CheckRequestAccess(methods: seq<MetaMethod>, meth: string, level: Option<int>): Option<ErrorCode> {
    var found := Lookup(methods, meth);
    if found.None? then Some(MethodNotFound) else CheckAccess(level, found.value)
  }

  /** What a node does with a request: reply at once, or run application code. */
  datatype NodeAction = Reply(body: Body) | RunHandler

  function StaticTable(methods: seq<MetaMethod>, path: Path): seq<MetaMethod> {
    if path == [] then DIR_LS_METHODS + methods else []
  }

  function ProcessStatic(methods: seq<MetaMethod>, path: Path, meth: string, level: Option<int>,
                         dir: DirParam, ls: LsParam): NodeAction
  {
    var table := StaticTable(methods, path);
    var refused := CheckRequestAccess(table, meth, level);
    if refused.Some? then Reply(Error(refused.value))
    else if meth == METH_DIR then Reply(Success(BuiltinDir(table, dir)))
    else if meth == METH_LS then Reply(Success(BuiltinLs(ls)))
    else RunHandler
  }

  predicate Reports(value: Value, name: string) {
    match value
    case Methods(_, methods) => exists m :: m in methods && m.name == name
    case OneMethod(m) => m.name == name
    case _ => false
  }

  /** A static node reports a name exactly when calling it at the node's own path passes the name lookup. */
  lemma StaticDirAgreesWithDispatch(methods: seq<MetaMethod>, name: string, level: Option<int>,
                                    dirLevel: int, dir: DirParam, ls: LsParam)
    requires dirLevel >= BROWSE && (dir.DirExists? ==> dir.name == name)
    ensures
      var reply := ProcessStatic(methods, [], METH_DIR, Some(dirLevel), dir, ls);
      && reply.Reply? && reply.body.Success?
      && (Reports(reply.body.value, name)
          <==> ProcessStatic(methods, [], name, level, dir, ls) != Reply(Error(MethodNotFound)))
  {
    assert Lookup(StaticTable(methods, []), METH_DIR) == Some(META_METHOD_DIR);
  }

  lemma {:induction false} LookupInConcat(first: seq<MetaMethod>, second: seq<MetaMethod>, name: string)
    ensures Lookup(first + second, name)
         == if Lookup(first, name).Some? then Lookup(first, name) else Lookup(second, name)
  {
    if first == [] {
      assert first + second == second;
    } else {
      LookupInConcat(first[1..], second, name);
      assert (first + second)[1..] == first[1..] + second;
    }
  }

  /**
   * Application code runs exactly for a name other than `dir`/`ls`, at the node's own path, whose first
   * entry in the node's own list asks for no more than the request's level.
   */
  lemma StaticHandlerRunsExactly(methods: seq<MetaMethod>, path: Path, meth: string, level: Option<int>,
                                 dir: DirParam, ls: LsParam)
    ensures ProcessStatic(methods, path, meth, level, dir, ls) == RunHandler
       <==> path == [] && meth != METH_DIR && meth != METH_LS && Lookup(methods, meth).Some?
            && Lookup(methods, meth).value.access <= (if level.Some? then level.value else 0)
  {
    LookupInConcat(DIR_LS_METHODS, methods, meth);
    assert DIR_LS_METHODS[1..][0] == META_METHOD_LS;
  }

  /** What the application's resolver chose to do with a request to a dynamic node. */
  datatype HandlerKind = ResolvesDir | ResolvesLs | ResolvesMethod

  function ProcessDynamic(resolved: Option<(seq<MetaMethod>, HandlerKind)>, meth: string, level: Option<int>,
                          dir: DirParam): NodeAction
  {
    match resolved
    case None => Reply(Error(MethodNotFound))
    case Some((methods, kind)) =>
      match kind
      case ResolvesDir =>
        var refused := CheckAccess(level, LookupOr(methods, METH_DIR, META_METHOD_DIR));
        if refused.Some? then Reply(Error(refused.value)) else Reply(Success(BuiltinDir(AllMethods(methods), dir)))
      case ResolvesLs =>
        var refused := CheckAccess(level, LookupOr(methods, METH_LS, META_METHOD_LS));
        if refused.Some? then Reply(Error(refused.value)) else RunHandler
      case ResolvesMethod =>
        var refused := CheckRequestAccess(methods, meth, level);
        if refused.Some? then Reply(Error(refused.value)) else RunHandler
  }

  function LevelOf(level: Option<int>): int { if level.Some? then level.value else 0 }

  /** `m` is the first entry with the name. */
  predicate FirstNamed(methods: seq<MetaMethod>, name: string, m: MetaMethod) {
    exists i :: 0 <= i < |methods| && methods[i] == m && m.name == name
                && forall j :: 0 <= j < i ==> methods[j].name != name
  }

  predicate Named(methods: seq<MetaMethod>, name: string) {
    exists i :: 0 <= i < |methods| && methods[i].name == name
  }

  lemma IndexOfIsFirst(methods: seq<MetaMethod>, name: string)
    ensures var i := IndexOf(methods, name); i >= 0 ==> forall j :: 0 <= j < i ==> methods[j].name != name
  {
  }

  lemma LookupIsFirst(methods: seq<MetaMethod>, name: string)
    ensures Lookup(methods, name).Some? <==> Named(methods, name)
    ensures Lookup(methods, name).Some? ==> FirstNamed(methods, name, Lookup(methods, name).value)
    ensures forall m :: FirstNamed(methods, name, m) ==> Lookup(methods, name) == Some(m)
  {
    IndexOfIsFirst(methods, name);
    var i := IndexOf(methods, name);
    if Named(methods, name) {
      var k :| 0 <= k < |methods| && methods[k].name == name;
      assert methods[k] in methods;
    }
    forall m | FirstNamed(methods, name, m) ensures Lookup(methods, name) == Some(m) {
      var k :| 0 <= k < |methods| && methods[k] == m && m.name == name
               && forall j :: 0 <= j < k ==> methods[j].name != name;
      assert methods[k] in methods;
      assert i >= 0 && methods[i].name == name && i == k;
    }
  }

  /** The application's entry for the name, or else the default. */
  predicate EntryOrDefault(methods: seq<MetaMethod>, name: string, default: MetaMethod, m: MetaMethod) {
    if Named(methods, name) then FirstNamed(methods, name, m) else m == default
  }

  /** `dir` and `ls` as the application has them or by default, then the entries named otherwise, all in their order. */
  predicate DirList(methods: seq<MetaMethod>, list: seq<MetaMethod>) {
    && |list| >= 2 && list[0].name == METH_DIR && list[1].name == METH_LS
    && EntryOrDefault(methods, METH_DIR, META_METHOD_DIR, list[0])
    && EntryOrDefault(methods, METH_LS, META_METHOD_LS, list[1])
    && Others(list) == Others(methods) && Others(list[2..]) == Others(list)
  }

  /** What a `dir` reply says of the list, in each of its three forms. */
  predicate Describes(value: Value, dir: DirParam, list: seq<MetaMethod>) {
    match dir
    case Brief => value == Methods(false, list)
    case Full => value == Methods(true, list)
    case DirExists(name) =>
      if Named(list, name) then value.OneMethod? && FirstNamed(list, name, value.meth) else value == Bool(false)
  }

  lemma BuiltinDirDescribes(methods: seq<MetaMethod>, dir: DirParam)
    ensures Describes(BuiltinDir(methods, dir), dir, methods)
  {
    if dir.DirExists? {
      LookupIsFirst(methods, dir.name);
    }
  }

  lemma AllMethodsIsDirList(methods: seq<MetaMethod>)
    ensures DirList(methods, AllMethods(methods))
  {
    AllMethodsNormalises(methods, METH_DIR);
    LookupIsFirst(methods, METH_DIR);
    LookupIsFirst(methods, METH_LS);
    var list := AllMethods(methods);
    assert list[1..][1..] == list[2..];
  }

  /**
   * A `dir` that a dynamic node's resolver accepts, from a caller whose level suffices for the entry of `dir`, is
   * answered with the normalised list in the form asked for. From anyone else it is refused.
   */
  lemma DynamicDirReplies(methods: seq<MetaMethod>, meth: string, level: Option<int>, dir: DirParam)
    returns (list: seq<MetaMethod>)
    ensures DirList(methods, list)
    ensures
      var reply := ProcessDynamic(Some((methods, ResolvesDir)), meth, level, dir);
      if list[0].access <= LevelOf(level)
      then reply.Reply? && reply.body.Success? && Describes(reply.body.value, dir, list)
      else reply == Reply(Error(PermissionDenied))
  {
    list := AllMethods(methods);
    AllMethodsIsDirList(methods);
    AllMethodsNormalises(methods, METH_DIR);
    BuiltinDirDescribes(list, dir);
  }

  /** The access level a dynamic node's `dir` reply lists for a name is the one it enforces when that name is called. */
  lemma AdvertisedAccessIsEnforced(methods: seq<MetaMethod>, name: string, level: Option<int>,
                                   dirLevel: Option<int>, dir: DirParam, full: bool, listed: seq<MetaMethod>)
    requires ProcessDynamic(Some((methods, ResolvesDir)), METH_DIR, dirLevel, dir)
          == Reply(Success(Methods(full, listed)))
    ensures
      var kind := if name == METH_DIR then ResolvesDir else if name == METH_LS then ResolvesLs else ResolvesMethod;
      var action := ProcessDynamic(Some((methods, kind)), name, level, dir);
      && (action == Reply(Error(PermissionDenied))
          <==> exists m :: FirstNamed(listed, name, m) && m.access > LevelOf(level))
      && (action == Reply(Error(MethodNotFound)) <==> !Named(listed, name))
  {
    assert listed == AllMethods(methods);
    AllMethodsNormalises(methods, name);
    LookupIsFirst(listed, name);
  }

  /**
   * Application code of a dynamic node runs exactly for an `ls` or a method it resolved, from a caller whose level
   * suffices for the entry. A method without an entry, and a request not resolved, are unknown methods.
   */
  lemma DynamicHandlerRunsExactly(resolved: Option<(seq<MetaMethod>, HandlerKind)>, meth: string,
                                  level: Option<int>, dir: DirParam)
    ensures
      var action := ProcessDynamic(resolved, meth, level, dir);
      && (action == RunHandler
          <==> && resolved.Some? && !resolved.value.1.ResolvesDir?
               && exists m: MetaMethod :: m.access <= LevelOf(level)
                    && if resolved.value.1.ResolvesLs?
                       then EntryOrDefault(resolved.value.0, METH_LS, META_METHOD_LS, m)
                       else FirstNamed(resolved.value.0, meth, m))
      && (resolved.None? || (resolved.value.1.ResolvesMethod? && !Named(resolved.value.0, meth)) ==>
            action == Reply(Error(MethodNotFound)))
  {
    if resolved.Some? {
      LookupIsFirst(resolved.value.0, meth);
      LookupIsFirst(resolved.value.0, METH_LS);
      assert EntryOrDefault(resolved.value.0, METH_LS, META_METHOD_LS,
                            LookupOr(resolved.value.0, METH_LS, META_METHOD_LS));
    }
  }

  /** What a static node answers to `dir` and `ls` at its own path, and that it has no other path. */
  lemma StaticReplies(methods: seq<MetaMethod>, path: Path, meth: string, level: Option<int>,
                      dir: DirParam, ls: LsParam)
    requires meth == METH_DIR || meth == METH_LS
    ensures
      var reply := ProcessStatic(methods, path, meth, level, dir, ls);
      if path != [] then reply == Reply(Error(MethodNotFound))
      else if LevelOf(level) < BROWSE then reply == Reply(Error(PermissionDenied))
      else && reply.Reply? && reply.body.Success?
           && (meth == METH_DIR ==>
                 Describes(reply.body.value, dir, [META_METHOD_DIR, META_METHOD_LS] + methods))
           && (meth == METH_LS ==> reply.body.value == match ls case List => Names([]) case LsExists(_) => Bool(false))
  {
    var table := [META_METHOD_DIR, META_METHOD_LS] + methods;
    assert table[1..][0] == META_METHOD_LS;
    assert Lookup(table, METH_DIR) == Some(META_METHOD_DIR) && Lookup(table, METH_LS) == Some(META_METHOD_LS);
    BuiltinDirDescribes(table, dir);
  }
}
