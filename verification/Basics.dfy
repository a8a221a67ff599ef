/** Small shared vocabulary: options, channel logs, duplicate-free sequences. */
module Basics {
  datatype Option<+T> = None | Some(value: T)

  /** What has been sent so far into channel `c`; a channel nobody wrote to is empty. */
  function Log<F>(logs: map<nat, seq<F>>, c: nat): seq<F> {
    if c in logs then logs[c] else []
  }

  function Send<F>(logs: map<nat, seq<F>>, c: nat, frame: F): map<nat, seq<F>> {
    logs[c := Log(logs, c) + [frame]]
  }

  ghost predicate NoDup<T>(s: seq<T>) {
    forall i, j :: 0 <= i < j < |s| ==> s[i] != s[j]
  }
}
