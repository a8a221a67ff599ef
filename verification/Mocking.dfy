/** The test driver: a producer pushes messages and notifies, awaiters look for theirs and sleep in between. */
module Mocking {
  import opened Basics
  import opened Wire

  /** Which messages an awaiter waits for. */
  type Matcher = (nat, Message) -> bool

  /** Where an awaiter is in its loop. The flag says whether its listener has been notified. */
  datatype Awaiter =
    | Listening(notified: bool) | Sleeping(notified: bool) | AtLoopStart | Got(message: Message) | TimedOut

  datatype Driver = Driver(
    pending: seq<Message>,
    notifying: bool,                // the producer has pushed and not notified yet
    awaiters: map<nat, Awaiter>,
    arrived: seq<Message>,
    order: seq<nat>,                // positions in `arrived` of the pending messages, one for each
    taken: seq<Message>)

  const START := Driver([], false, map[], [], [], [])

  datatype Step =
    | Push(message: Message) | Notify
    | Begin(i: nat) | Listen(i: nat) | Check(i: nat) | Wake(i: nat) | GiveUp(i: nat)

  function FirstMatch(matches: Matcher, i: nat, pending: seq<Message>): (pos: nat)
    ensures pos <= |pending|
    ensures pos < |pending| ==> matches(i, pending[pos])
    ensures forall k :: 0 <= k < pos ==> !matches(i, pending[k])
  {
    if pending == [] || matches(i, pending[0]) then 0 else 1 + FirstMatch(matches, i, pending[1..])
  }

  lemma FirstMatchFinds(matches: Matcher, i: nat, pending: seq<Message>)
    ensures FirstMatch(matches, i, pending) < |pending| <==> exists m :: m in pending && matches(i, m)
  {
    if m :| m in pending && matches(i, m) {
      var k :| 0 <= k < |pending| && pending[k] == m;
      assert FirstMatch(matches, i, pending) <= k;
    }
  }

  /** Past the end nothing is removed. */
  function RemoveAt<T>(s: seq<T>, pos: nat): seq<T> {
    if pos < |s| then s[..pos] + s[pos + 1..] else s
  }

  function Notified(a: Awaiter): Awaiter {
    match a
    case Listening(_) => Listening(true)
    case Sleeping(_) => Sleeping(true)
    case _ => a
  }

  predicate Enabled(d: Driver, step: Step) {
    match step
    case Push(_) => !d.notifying
    case Notify => d.notifying
    case Begin(i) => i !in d.awaiters
    case Listen(i) => i in d.awaiters && d.awaiters[i].AtLoopStart?
    case Check(i) => i in d.awaiters && d.awaiters[i].Listening?
    case Wake(i) => i in d.awaiters && d.awaiters[i] == Sleeping(true)
    case GiveUp(i) => i in d.awaiters && d.awaiters[i] == Sleeping(false)
  }

  function CheckPending(matches: Matcher, d: Driver, i: nat): Driver
    requires Enabled(d, Check(i))
  {
    var pos := FirstMatch(matches, i, d.pending);
    if pos == |d.pending| then
      d.(awaiters := d.awaiters[i := Sleeping(d.awaiters[i].notified)])
    else
      d.(awaiters := d.awaiters[i := Got(d.pending[pos])],
         pending := RemoveAt(d.pending, pos), order := RemoveAt(d.order, pos), taken := d.taken + [d.pending[pos]])
  }

  function Next(matches: Matcher, d: Driver, step: Step): Driver
    requires Enabled(d, step)
  {
    match step
    case Push(m) =>
      d.(pending := d.pending + [m], order := d.order + [|d.arrived|], arrived := d.arrived + [m], notifying := true)
    case Notify => d.(notifying := false, awaiters := map i | i in d.awaiters :: Notified(d.awaiters[i]))
    case Begin(i) => d.(awaiters := d.awaiters[i := AtLoopStart])
    case Listen(i) => d.(awaiters := d.awaiters[i := Listening(false)])
    case Check(i) => CheckPending(matches, d, i)
    case Wake(i) => d.(awaiters := d.awaiters[i := AtLoopStart])
    case GiveUp(i) => d.(awaiters := d.awaiters[i := TimedOut])
  }

  function After(matches: Matcher, run: seq<Step>): Driver {
    if run == [] then START
    else
      var d, step := After(matches, run[..|run| - 1]), run[|run| - 1];
      if Enabled(d, step) then Next(matches, d, step) else d
  }

  // ------------------------------------------------------------ awaiters

  /** An awaiter goes round its loop on its own; what others do can only notify it. */
  lemma AwaiterMoves(matches: Matcher, d: Driver, step: Step, i: nat)
    requires Enabled(d, step)
    ensures
      var d' := Next(matches, d, step);
      && (step == Begin(i) ==> i in d'.awaiters && d'.awaiters[i] == AtLoopStart)
      && (step == Listen(i) ==> d'.awaiters == d.awaiters[i := Listening(false)])
      && (step == Wake(i) ==> d.awaiters[i] == Sleeping(true) && d'.awaiters == d.awaiters[i := AtLoopStart])
      && (step == GiveUp(i) ==> d.awaiters[i] == Sleeping(false) && d'.awaiters == d.awaiters[i := TimedOut])
      && (step == Check(i) ==>
            && (d'.awaiters[i].Got? <==> exists m :: m in d.pending && matches(i, m))
            && (d'.awaiters[i].Got? || d'.awaiters[i] == Sleeping(d.awaiters[i].notified)))
      && (i in d.awaiters && step !in {Listen(i), Wake(i), GiveUp(i), Check(i)} ==>
            i in d'.awaiters && d'.awaiters[i] == if step.Notify? then Notified(d.awaiters[i]) else d.awaiters[i])
  {
    FirstMatchFinds(matches, i, d.pending);
  }

  // ------------------------------------------------------------ invariants

  /** No pending message is one a sleeper would want, except one just pushed and not announced yet. */
  ghost predicate NobodySleepsThrough(matches: Matcher, d: Driver) {
    forall i, k :: i in d.awaiters && d.awaiters[i] == Sleeping(false)
                   && 0 <= k < |d.pending| - (if d.notifying then 1 else 0) ==>
      !matches(i, d.pending[k])
  }

  /** The pending messages are those arrived and not taken, in order of arrival. */
  ghost predicate InArrivalOrder(d: Driver) {
    && |d.order| == |d.pending|
    && (forall k :: 0 <= k < |d.order| ==> d.order[k] < |d.arrived| && d.pending[k] == d.arrived[d.order[k]])
    && (forall k, l :: 0 <= k < l < |d.order| ==> d.order[k] < d.order[l])
  }

  ghost predicate NothingLost(d: Driver) {
    multiset(d.arrived) == multiset(d.pending) + multiset(d.taken)
  }

  ghost predicate Inv(matches: Matcher, d: Driver) {
    NobodySleepsThrough(matches, d) && InArrivalOrder(d) && NothingLost(d)
  }

  lemma RemoveKeepsMultiset(s: seq<Message>, pos: nat)
    requires pos < |s|
    ensures multiset(s) == multiset(RemoveAt(s, pos)) + multiset([s[pos]])
  {
    assert s == s[..pos] + ([s[pos]] + s[pos + 1..]);
  }

  lemma RemovedAt<T>(s: seq<T>, pos: nat)
    requires pos < |s|
    ensures forall k :: 0 <= k < |s| - 1 ==> RemoveAt(s, pos)[k] == s[if k < pos then k else k + 1]
  {
  }

  lemma OrderAfterTake(d: Driver, pos: nat, d': Driver)
    requires InArrivalOrder(d) && pos < |d.pending|
    requires d'.pending == RemoveAt(d.pending, pos) && d'.order == RemoveAt(d.order, pos) && d'.arrived == d.arrived
    ensures InArrivalOrder(d')
  {
    RemovedAt(d.pending, pos);
    RemovedAt(d.order, pos);
  }

  lemma SleepersAfterTake(matches: Matcher, d: Driver, i: nat, pos: nat)
    requires NobodySleepsThrough(matches, d) && pos < |d.pending|
    ensures forall j, k :: j in d.awaiters && d.awaiters[j] == Sleeping(false)
                           && 0 <= k < |d.pending| - 1 - (if d.notifying then 1 else 0) ==>
              !matches(j, RemoveAt(d.pending, pos)[k])
  {
    RemovedAt(d.pending, pos);
  }

  lemma InvAfterCheck(matches: Matcher, d: Driver, i: nat)
    requires Inv(matches, d) && Enabled(d, Check(i))
    ensures Inv(matches, CheckPending(matches, d, i))
  {
    var pos := FirstMatch(matches, i, d.pending);
    if pos < |d.pending| {
      RemoveKeepsMultiset(d.pending, pos);
      OrderAfterTake(d, pos, CheckPending(matches, d, i));
      SleepersAfterTake(matches, d, i, pos);
    }
  }

  lemma InvAfterStep(matches: Matcher, d: Driver, step: Step)
    requires Inv(matches, d) && Enabled(d, step)
    ensures Inv(matches, Next(matches, d, step))
  {
    match step
    case Check(i) => InvAfterCheck(matches, d, i);
    case _ =>
  }

  lemma {:induction false} InvAlways(matches: Matcher, run: seq<Step>)
    ensures Inv(matches, After(matches, run))
  {
    if run != [] {
      InvAlways(matches, run[..|run| - 1]);
      var d, step := After(matches, run[..|run| - 1]), run[|run| - 1];
      if Enabled(d, step) { InvAfterStep(matches, d, step); }
    }
  }

  /**
   * No lost wake-up: whatever the interleaving, if a message an awaiter wants is pending while it sleeps, the
   * awaiter has been notified or the producer is about to notify it.
   */
  lemma NoLostWakeUp(matches: Matcher, run: seq<Step>, i: nat, m: Message)
    requires
      var d := After(matches, run);
      i in d.awaiters && d.awaiters[i].Sleeping? && m in d.pending && matches(i, m)
    ensures
      var d := After(matches, run);
      d.awaiters[i].notified || (d.notifying && m == d.pending[|d.pending| - 1])
  {
    InvAlways(matches, run);
    var d := After(matches, run);
    var k :| 0 <= k < |d.pending| && d.pending[k] == m;
  }

  lemma OneMore(matches: Matcher, run: seq<Step>, step: Step)
    requires Enabled(After(matches, run), step)
    ensures After(matches, run + [step]) == Next(matches, After(matches, run), step)
  {
    assert (run + [step])[..|run|] == run;
  }

  /** Once notified, it finds a message if one it wants is still there when it looks again. */
  lemma NotifiedAwaiterFinds(matches: Matcher, run: seq<Step>, i: nat, m: Message)
    requires
      var d := After(matches, run);
      !d.notifying && i in d.awaiters && d.awaiters[i].Sleeping? && m in d.pending && matches(i, m)
    ensures
      var d, d' := After(matches, run), After(matches, run + [Wake(i)] + [Listen(i)] + [Check(i)]);
      i in d'.awaiters && d'.awaiters[i].Got? && d'.taken == d.taken + [d'.awaiters[i].message]
  {
    var d := After(matches, run);
    NoLostWakeUp(matches, run, i, m);
    InvAlways(matches, run);
    OneMore(matches, run, Wake(i));
    OneMore(matches, run + [Wake(i)], Listen(i));
    var d2 := After(matches, run + [Wake(i)] + [Listen(i)]);
    assert d2 == d.(awaiters := d.awaiters[i := AtLoopStart][i := Listening(false)]);
    OneMore(matches, run + [Wake(i)] + [Listen(i)], Check(i));
    var k :| 0 <= k < |d.pending| && d.pending[k] == m;
    assert FirstMatch(matches, i, d.pending) <= k;
  }

  /** The messages the producer pushed in the course of the run. */
  function Pushed(matches: Matcher, run: seq<Step>): seq<Message> {
    if run == [] then []
    else
      var before, step := run[..|run| - 1], run[|run| - 1];
      Pushed(matches, before) + (if step.Push? && Enabled(After(matches, before), step) then [step.message] else [])
  }

  lemma {:induction false} ArrivedIsPushed(matches: Matcher, run: seq<Step>)
    ensures After(matches, run).arrived == Pushed(matches, run)
  {
    if run != [] {
      ArrivedIsPushed(matches, run[..|run| - 1]);
    }
  }

  /** No lost message: what was pushed is what is pending and what was taken. */
  lemma MessagesAreConserved(matches: Matcher, run: seq<Step>)
    ensures
      var d := After(matches, run);
      && d.arrived == Pushed(matches, run)
      && multiset(Pushed(matches, run)) == multiset(d.pending) + multiset(d.taken)
  {
    InvAlways(matches, run);
    ArrivedIsPushed(matches, run);
  }

  /** Whoever takes a message takes the one that arrived first among those it wants that are still pending. */
  lemma EarliestIsTaken(matches: Matcher, run: seq<Step>, i: nat)
    requires Enabled(After(matches, run), Check(i)) && Next(matches, After(matches, run), Check(i)).awaiters[i].Got?
    ensures
      var d := After(matches, run);
      var got := Next(matches, d, Check(i)).awaiters[i].message;
      exists at :: at in d.order && at < |d.arrived| && d.arrived[at] == got && matches(i, got)
                   && forall other :: other in d.order && other < at ==> !matches(i, d.arrived[other])
  {
    InvAlways(matches, run);
    var d := After(matches, run);
    var pos := FirstMatch(matches, i, d.pending);
    assert d.order[pos] in d.order;
    forall other | other in d.order && other < d.order[pos] ensures !matches(i, d.arrived[other]) {
      var k :| 0 <= k < |d.order| && d.order[k] == other;
    }
  }

  // ------------------------------------------------------- the driver in place

  class TestApp {
    const matches: Matcher
    var pendingMsgs: seq<Message>
    var notifying: bool
    var awaiters: map<nat, Awaiter>
    ghost var arrived: seq<Message>
    ghost var order: seq<nat>
    ghost var taken: seq<Message>

    ghost function View(): Driver
      reads this
    {
      Driver(pendingMsgs, notifying, awaiters, arrived, order, taken)
    }

    ghost predicate Valid()
      reads this
    {
      Inv(matches, View())
    }

    constructor (matches: Matcher)
      ensures View() == START && Valid() && this.matches == matches
    {
      this.matches := matches;
      pendingMsgs, notifying, awaiters, arrived, order, taken := [], false, map[], [], [], [];
    }

    /** The producer, first half. */
    method PushMessage(message: Message)
      requires Valid() && !notifying
      modifies this
      ensures Valid() && View() == Next(matches, old(View()), Push(message))
    {
      InvAfterStep(matches, View(), Push(message));
      pendingMsgs := pendingMsgs + [message];
      order := order + [|arrived|];
      arrived := arrived + [message];
      notifying := true;
    }

    /** The producer, second half. */
    method NotifyAll()
      requires Valid() && notifying
      modifies this
      ensures Valid() && View() == Next(matches, old(View()), Notify)
    {
      InvAfterStep(matches, View(), Notify);
      awaiters := map i | i in awaiters :: Notified(awaiters[i]);
      notifying := false;
    }

    /** The critical section of `await_and_remove`: look for a match and take it out in place. */
    method CheckAndRemove(i: nat) returns (found: Option<Message>)
      requires Valid() && i in awaiters && awaiters[i].Listening?
      modifies this
      ensures Valid() && View() == Next(matches, old(View()), Check(i))
      ensures found.Some? <==> exists m :: m in old(pendingMsgs) && matches(i, m)
      ensures found.Some? ==> awaiters[i] == Got(found.value)
    {
      InvAfterStep(matches, View(), Check(i));
      FirstMatchFinds(matches, i, pendingMsgs);
      found := RemoveFirstMatch(i);
    }

    method RemoveFirstMatch(i: nat) returns (found: Option<Message>)
      requires i in awaiters && awaiters[i].Listening? && |order| == |pendingMsgs|
      modifies this
      ensures View() == CheckPending(matches, old(View()), i)
      ensures var pos := FirstMatch(matches, i, old(pendingMsgs));
              found == if pos < |old(pendingMsgs)| then Some(old(pendingMsgs)[pos]) else None
    {
      var pos := 0;
      while pos < |pendingMsgs| && !matches(i, pendingMsgs[pos])
        invariant 0 <= pos <= |pendingMsgs|
        invariant forall k :: 0 <= k < pos ==> !matches(i, pendingMsgs[k])
      {
        pos := pos + 1;
      }
      assert pos == FirstMatch(matches, i, pendingMsgs);
      if pos == |pendingMsgs| {
        awaiters := awaiters[i := Sleeping(awaiters[i].notified)];
        return None;
      }
      found := Some(pendingMsgs[pos]);
      awaiters := awaiters[i := Got(pendingMsgs[pos])];
      taken := taken + [pendingMsgs[pos]];
      order := RemoveAt(order, pos);
      pendingMsgs := pendingMsgs[..pos] + pendingMsgs[pos + 1..];
    }
  }
}
