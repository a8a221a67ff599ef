/** SHV paths as text and as lists of components, and the SHV 2 path match. */
module Paths {

  /** The '/'-separated components of a path; like Rust's `split`, never empty: "" has the one component "". */
  function Split(path: string): (parts: seq<string>)
    ensures |parts| > 0
  {
    if path == "" then [""]
    else
      var rest := Split(path[1..]);
      if path[0] == '/' then [""] + rest else [[path[0]] + rest[0]] + rest[1..]
  }

  function Join(parts: seq<string>): string
    requires |parts| > 0
  {
    if |parts| == 1 then parts[0] else parts[0] + "/" + Join(parts[1..])
  }

  lemma {:induction false} JoinSplit(path: string)
    ensures Join(Split(path)) == path
  {
    if path != "" {
      JoinSplit(path[1..]);
      var rest := Split(path[1..]);
      if path[0] == '/' {
        assert ([""] + rest)[1..] == rest;
        assert path == "/" + path[1..];
      } else {
        var parts := [[path[0]] + rest[0]] + rest[1..];
        assert parts[1..] == rest[1..];
        assert path == [path[0]] + path[1..];
        if |rest| > 1 {
          assert Join(parts) == [path[0]] + (rest[0] + "/" + Join(rest[1..]));
        }
      }
    }
  }

  /** `path.strip_prefix(subscribed)` leaves nothing, or something that starts with '/'. */
  predicate PathMatches(subscribed: string, path: string) {
    subscribed <= path && (|path| == |subscribed| || path[|subscribed|] == '/')
  }

  lemma FirstComponent(path: string)
    ensures path == "" || path[0] == '/' ==> Split(path)[0] == ""
    ensures path != "" && path[0] != '/' ==> |Split(path)[0]| > 0 && Split(path)[0][0] == path[0]
    ensures path != "" && path[0] == '/' ==> |Split(path)| > 1
  {
  }

  lemma TailMatches(subscribed: string, path: string)
    requires subscribed != "" && path != "" && path[0] == subscribed[0]
    ensures PathMatches(subscribed, path) <==> PathMatches(subscribed[1..], path[1..])
  {
    assert subscribed == [subscribed[0]] + subscribed[1..];
    assert path == [path[0]] + path[1..];
  }

  lemma SplitPrefixStep(subscribed: string, path: string)
    requires subscribed != "" && path != "" && path[0] == subscribed[0]
    ensures Split(subscribed) <= Split(path) <==> Split(subscribed[1..]) <= Split(path[1..])
  {
    var s, p := Split(subscribed[1..]), Split(path[1..]);
    var s', p' := Split(subscribed), Split(path);
    if path[0] == '/' {
      assert s == s'[1..] && p == p'[1..];
    } else {
      assert s'[0] == [path[0]] + s[0] && p'[0] == [path[0]] + p[0];
      assert s[0] == s'[0][1..] && p[0] == p'[0][1..];
      assert s[1..] == s'[1..] && p[1..] == p'[1..];
      PrefixByHeadAndTail(s, p);
      PrefixByHeadAndTail(s', p');
    }
  }

  lemma PrefixByHeadAndTail(s: seq<string>, p: seq<string>)
    requires |s| > 0 && |p| > 0
    ensures s <= p <==> s[0] == p[0] && s[1..] <= p[1..]
  {
    assert s == [s[0]] + s[1..] && p == [p[0]] + p[1..];
  }

  /** The textual test is exactly "the subscribed components are the first components of the path". */
  lemma {:induction false} MatchIsComponentPrefix(subscribed: string, path: string)
    ensures PathMatches(subscribed, path) <==> Split(subscribed) <= Split(path)
    decreases |subscribed|
  {
    FirstComponent(subscribed);
    FirstComponent(path);
    if subscribed == "" {
    } else if path == "" || path[0] != subscribed[0] {
      PrefixByHeadAndTail(Split(subscribed), Split(path));
    } else {
      MatchIsComponentPrefix(subscribed[1..], path[1..]);
      TailMatches(subscribed, path);
      SplitPrefixStep(subscribed, path);
    }
  }

  /** Hence the match is a partial order on paths. */
  lemma MatchIsPartialOrder(a: string, b: string, c: string)
    ensures PathMatches(a, a)
    ensures PathMatches(a, b) && PathMatches(b, a) ==> a == b
    ensures PathMatches(a, b) && PathMatches(b, c) ==> PathMatches(a, c)
  {
    MatchIsComponentPrefix(a, b);
    MatchIsComponentPrefix(b, c);
    MatchIsComponentPrefix(a, c);
  }
}
