// Runs of a transition system in which any process may take the next step.
module Schedules {
  import opened Wrappers

  // Executing a schedule; None when it schedules a process that cannot move.
  function Run<S, W>(step: (S, W) -> Option<S>, s: S, sched: seq<W>): Option<S>
    decreases |sched|
  {
    if sched == [] then Some(s)
    else match step(s, sched[0])
      case None => None
      case Some(s') => Run(step, s', sched[1..])
  }

  // The first n steps of an infinite schedule.
  ghost function Prefix<W>(f: nat -> W, n: nat): (sched: seq<W>)
    ensures |sched| == n && forall k: nat | k < n :: sched[k] == f(k)
  {
    seq(n, k requires 0 <= k < n => f(k))
  }

  // One process taking n steps in a row.
  ghost function Repeat<W>(who: W, n: nat): (sched: seq<W>)
    ensures |sched| == n
  {
    if n == 0 then [] else [who] + Repeat(who, n - 1)
  }

  // A schedule of whole rounds, `len` steps each.
  ghost function Rounds<W>(order: seq<W>, len: W -> nat): seq<W> {
    if order == [] then []
    else Rounds(order[..|order| - 1], len) + Repeat(order[|order| - 1], len(order[|order| - 1]))
  }

  lemma {:induction false} RoundsSnoc<W>(order: seq<W>, who: W, len: W -> nat)
    ensures Rounds(order + [who], len) == Rounds(order, len) + Repeat(who, len(who))
  {
    assert (order + [who])[..|order|] == order;
  }

  lemma {:induction false} RoundsLength<W(!new)>(order: seq<W>, len: W -> nat, n: nat)
    requires forall who :: len(who) == n
    ensures |Rounds(order, len)| == |order| * n
  {
    if order != [] {
      RoundsLength(order[..|order| - 1], len, n);
      assert |order| * n == (|order| - 1) * n + n;
    }
  }

  lemma {:induction false} RunAppend<S, W>(step: (S, W) -> Option<S>, s: S, a: seq<W>, b: seq<W>)
    ensures Run(step, s, a + b)
            == match Run(step, s, a) case None => None case Some(s') => Run(step, s', b)
    decreases |a|
  {
    if a == [] {
      assert [] + b == b;
    } else {
      assert (a + b)[1..] == a[1..] + b && (a + b)[0] == a[0];
      if step(s, a[0]).Some? {
        RunAppend(step, step(s, a[0]).value, a[1..], b);
      }
    }
  }

  // The first of several steps of one process.
  lemma {:induction false} RunRepeat<S, W>(step: (S, W) -> Option<S>, s: S, who: W, n: nat)
    requires n >= 1
    ensures Run(step, s, Repeat(who, n))
            == match step(s, who) case None => None case Some(s') => Run(step, s', Repeat(who, n - 1))
    ensures n == 1 ==> Run(step, s, Repeat(who, n)) == step(s, who)
  {
    assert Repeat(who, n)[1..] == Repeat(who, n - 1) && Repeat(who, n)[0] == who;
    assert n == 1 ==> Repeat(who, 0) == [];
  }

  // Every prefix of a run is a run.
  lemma {:induction false} RunPrefix<S, W>(step: (S, W) -> Option<S>, s: S, sched: seq<W>, n: nat)
    requires n <= |sched| && Run(step, s, sched).Some?
    ensures Run(step, s, sched[..n]).Some?
    decreases n
  {
    if n > 0 {
      assert sched[..n][1..] == sched[1..][..n - 1];
      RunPrefix(step, step(s, sched[0]).value, sched[1..], n - 1);
    }
  }

  ghost predicate Reachable<S(!new), W(!new)>(step: (S, W) -> Option<S>, init: S, s: S) {
    exists sched :: Run(step, init, sched) == Some(s)
  }

  lemma ReachableStart<S(!new), W(!new)>(step: (S, W) -> Option<S>, init: S)
    ensures Reachable(step, init, init)
  {
    assert Run(step, init, []) == Some(init);
  }

  lemma {:induction false} RunThenStep<S, W>(step: (S, W) -> Option<S>, s: S, sched: seq<W>, who: W)
    requires Run(step, s, sched).Some? && step(Run(step, s, sched).value, who).Some?
    ensures Run(step, s, sched + [who]) == step(Run(step, s, sched).value, who)
    decreases |sched|
  {
    if sched == [] {
      assert [who][1..] == [];
    } else {
      assert (sched + [who])[1..] == sched[1..] + [who];
      RunThenStep(step, step(s, sched[0]).value, sched[1..], who);
    }
  }

  lemma ReachableStep<S(!new), W(!new)>(step: (S, W) -> Option<S>, init: S, s: S, who: W)
    requires Reachable(step, init, s) && step(s, who).Some?
    ensures Reachable(step, init, step(s, who).value)
  {
    var sched :| Run(step, init, sched) == Some(s);
    RunThenStep(step, init, sched, who);
    assert Run(step, init, sched + [who]).Some?;
  }

  // Every step keeps the property.
  ghost predicate Kept<S(!new), W(!new)>(step: (S, W) -> Option<S>, inv: S -> bool) {
    forall s, who | inv(s) && step(s, who).Some? :: inv(step(s, who).value)
  }

  lemma {:induction false} RunKeeps<S(!new), W(!new)>(step: (S, W) -> Option<S>, inv: S -> bool, s: S, sched: seq<W>)
    requires Kept(step, inv) && inv(s) && Run(step, s, sched).Some?
    ensures inv(Run(step, s, sched).value)
    decreases |sched|
  {
    if sched != [] {
      RunKeeps(step, inv, step(s, sched[0]).value, sched[1..]);
    }
  }

  // What holds at the start and is kept by every step holds in every reachable state.
  lemma ReachableKeeps<S(!new), W(!new)>(step: (S, W) -> Option<S>, inv: S -> bool, init: S, s: S)
    requires Kept(step, inv) && inv(init) && Reachable(step, init, s)
    ensures inv(s)
  {
    var sched :| Run(step, init, sched) == Some(s);
    RunKeeps(step, inv, init, sched);
  }

  // Every element of the order may follow those before it.
  ghost predicate Follows<W>(allowed: (seq<W>, W) -> bool, order: seq<W>) {
    forall k | 0 <= k < |order| :: allowed(order[..k], order[k])
  }

  lemma {:induction false} FollowsSnoc<W>(allowed: (seq<W>, W) -> bool, order: seq<W>, who: W)
    ensures Follows(allowed, order + [who]) <==> Follows(allowed, order) && allowed(order, who)
  {
    var longer := order + [who];
    forall k | 0 <= k <= |order| ensures longer[..k] == order[..k] {
    }
    forall k | 0 <= k < |order| ensures longer[k] == order[k] {
    }
    assert longer[|order|] == who && order[..|order|] == order;
  }

  // After the rounds of an order a process can run one more round exactly when it is allowed.
  ghost predicate RoundByRound<S(!new), W(!new)>(
    step: (S, W) -> Option<S>, len: W -> nat, allowed: (seq<W>, W) -> bool, between: (S, seq<W>) -> bool)
  {
    forall s, order, who | between(s, order) ::
      var r := Run(step, s, Repeat(who, len(who)));
      (r.Some? <==> allowed(order, who)) && (r.Some? ==> between(r.value, order + [who]))
  }

  // What running the rounds of an order comes to.
  ghost predicate RunsAsAllowed<S(!new), W(!new)>(
    step: (S, W) -> Option<S>, init: S, len: W -> nat,
    allowed: (seq<W>, W) -> bool, between: (S, seq<W>) -> bool, order: seq<W>)
  {
    var r := Run(step, init, Rounds(order, len));
    (r.Some? <==> Follows(allowed, order)) && (r.Some? ==> between(r.value, order))
  }

  lemma {:induction false} OneMoreRound<S(!new), W(!new)>(
      step: (S, W) -> Option<S>, init: S, len: W -> nat,
      allowed: (seq<W>, W) -> bool, between: (S, seq<W>) -> bool, order: seq<W>, who: W)
    requires RoundByRound(step, len, allowed, between)
    requires RunsAsAllowed(step, init, len, allowed, between, order)
    ensures RunsAsAllowed(step, init, len, allowed, between, order + [who])
  {
    RoundsSnoc(order, who, len);
    RunAppend(step, init, Rounds(order, len), Repeat(who, len(who)));
    FollowsSnoc(allowed, order, who);
  }

  // Then rounds can be run in a given order exactly when each is allowed in its turn.
  lemma {:induction false} OrderRuns<S(!new), W(!new)>(
      step: (S, W) -> Option<S>, init: S, len: W -> nat,
      allowed: (seq<W>, W) -> bool, between: (S, seq<W>) -> bool, order: seq<W>)
    requires between(init, []) && RoundByRound(step, len, allowed, between)
    ensures RunsAsAllowed(step, init, len, allowed, between, order)
    decreases |order|
  {
    if order != [] {
      var before, last := order[..|order| - 1], order[|order| - 1];
      assert order == before + [last];
      OrderRuns(step, init, len, allowed, between, before);
      OneMoreRound(step, init, len, allowed, between, before, last);
    }
  }
}
