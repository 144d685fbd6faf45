// When periods begin and end, by the clock readings of the calls.
module Periods {
  import opened TrafficTypes
  import opened Window
  import opened Clock
  import opened Conservation

  // A period is described by the call that begins it; all but the first of these calls also
  // close the period before.
  ghost predicate Indices(calls: seq<Call>, r: seq<nat>) {
    && (forall k | 0 <= k < |r| :: r[k] < |calls|)
    && (forall k, m | 0 <= k < m < |r| :: r[k] < r[m])
  }

  // The first period begins with the first call after ten seconds on the clock.
  ghost predicate FirstBegins(calls: seq<Call>, r: seq<nat>)
    requires Indices(calls, r)
  {
    && (forall j | 0 <= j < |calls| && (r == [] || j < r[0]) :: calls[j].t1 <= 10_000_000_000)
    && (r != [] ==> calls[r[0]].t1 > 10_000_000_000)
  }

  // Each other one begins more than ten seconds after the one before.
  ghost predicate Apart(calls: seq<Call>, r: seq<nat>)
    requires Indices(calls, r)
  {
    forall k, m | 0 <= k < m < |r| && m == k + 1 :: calls[r[m]].t1 - calls[r[k]].t3 > 10_000_000_000
  }

  // The calls in between, and those after the last, come within ten seconds.
  ghost predicate Within(calls: seq<Call>, r: seq<nat>)
    requires Indices(calls, r)
  {
    && (forall k, m, j | 0 <= k < m < |r| && m == k + 1 && r[k] < j < r[m] ::
          calls[j].t1 - calls[r[k]].t3 <= 10_000_000_000)
    && (r != [] ==> forall j | r[|r| - 1] < j < |calls| ::
          calls[j].t1 - calls[r[|r| - 1]].t3 <= 10_000_000_000)
  }

  ghost predicate Timed(calls: seq<Call>, r: seq<nat>) {
    Indices(calls, r) && FirstBegins(calls, r) && Apart(calls, r) && Within(calls, r)
  }

  // When the open period began.
  ghost function BegunAt(calls: seq<Call>, r: seq<nat>): u64
    requires Indices(calls, r)
  {
    if r == [] then 0 else calls[r[|r| - 1]].t3
  }

  // Where the packets of period k begin: the first period includes what came before it.
  ghost function From(r: seq<nat>, k: nat): nat
    requires k < |r| || k == 0
  {
    if k == 0 then 0 else r[k]
  }

  // The closed periods are the packets between these calls, stamped with the second reading of
  // the call that closed them.
  ghost predicate ClosedAt(calls: seq<Call>, packets: seq<Packet>, r: seq<nat>, closed: seq<Period>)
    requires |packets| == |calls| && Indices(calls, r)
  {
    && |closed| == (if r == [] then 0 else |r| - 1)
    && forall k, m | 0 <= k < |closed| && m == k + 1 < |r| ::
         From(r, k) <= r[m] && closed[k] == Period(packets[From(r, k)..r[m]], calls[r[m]].t2 / 1_000_000_000)
  }

  // The open one is the rest.
  ghost predicate CutAt(calls: seq<Call>, packets: seq<Packet>, r: seq<nat>, s: Cut)
    requires |packets| == |calls| && Indices(calls, r)
  {
    && ClosedAt(calls, packets, r, s.closed)
    && s.open == packets[From(r, if r == [] then 0 else |r| - 1)..]
    && s.fromTime == BegunAt(calls, r)
  }

  ghost predicate LaidAs(calls: seq<Call>, packets: seq<Packet>, r: seq<nat>, s: Cut) {
    |packets| == |calls| && Timed(calls, r) && CutAt(calls, packets, r, s)
  }

  // ---- A call within the period ----

  lemma {:induction false} TimedStays(calls: seq<Call>, c: Call, r: seq<nat>)
    requires Timed(calls, r) && c.t1 - BegunAt(calls, r) <= 10_000_000_000
    ensures Timed(calls + [c], r)
  {
  }

  lemma {:induction false} CutStays(calls: seq<Call>, packets: seq<Packet>, c: Call, r: seq<nat>, s: Cut)
    requires |packets| == |calls| && Indices(calls, r) && CutAt(calls, packets, r, s)
    ensures Indices(calls + [c], r)
    ensures CutAt(calls + [c], packets + [c.p], r, s.(open := s.open + [c.p]))
  {
  }

  // ---- A call that begins a period ----

  lemma {:induction false} IndicesRoll(calls: seq<Call>, c: Call, r: seq<nat>)
    requires Indices(calls, r)
    ensures Indices(calls + [c], r + [|calls|])
  {
  }

  lemma {:induction false} FirstRolls(calls: seq<Call>, c: Call, r: seq<nat>)
    requires Indices(calls, r) && FirstBegins(calls, r) && c.t1 - BegunAt(calls, r) > 10_000_000_000
    ensures Indices(calls + [c], r + [|calls|]) && FirstBegins(calls + [c], r + [|calls|])
  {
    IndicesRoll(calls, c, r);
  }

  lemma {:induction false} ApartRolls(calls: seq<Call>, c: Call, r: seq<nat>)
    requires Indices(calls, r) && Apart(calls, r) && c.t1 - BegunAt(calls, r) > 10_000_000_000
    ensures Indices(calls + [c], r + [|calls|]) && Apart(calls + [c], r + [|calls|])
  {
    IndicesRoll(calls, c, r);
  }

  lemma {:induction false} WithinRolls(calls: seq<Call>, c: Call, r: seq<nat>)
    requires Indices(calls, r) && Within(calls, r)
    ensures Indices(calls + [c], r + [|calls|]) && Within(calls + [c], r + [|calls|])
  {
    IndicesRoll(calls, c, r);
  }

  lemma {:induction false} TimedRolls(calls: seq<Call>, c: Call, r: seq<nat>)
    requires Timed(calls, r) && c.t1 - BegunAt(calls, r) > 10_000_000_000
    ensures Timed(calls + [c], r + [|calls|])
  {
    FirstRolls(calls, c, r);
    ApartRolls(calls, c, r);
    WithinRolls(calls, c, r);
  }

  lemma {:induction false} ClosedRolls(calls: seq<Call>, packets: seq<Packet>, c: Call, r: seq<nat>, s: Cut)
    requires |packets| == |calls| && Indices(calls, r) && CutAt(calls, packets, r, s) && r != []
    ensures Indices(calls + [c], r + [|calls|])
    ensures ClosedAt(calls + [c], packets + [c.p], r + [|calls|],
                     s.closed + [Period(s.open, c.t2 / 1_000_000_000)])
  {
  }

  lemma {:induction false} CutRolls(calls: seq<Call>, packets: seq<Packet>, c: Call, r: seq<nat>, s: Cut)
    requires |packets| == |calls| && Indices(calls, r) && CutAt(calls, packets, r, s)
    ensures Indices(calls + [c], r + [|calls|])
    ensures CutAt(calls + [c], packets + [c.p], r + [|calls|],
                  if r == [] then Cut(s.closed, s.open + [c.p], c.t3)
                  else Cut(s.closed + [Period(s.open, c.t2 / 1_000_000_000)], [c.p], c.t3))
  {
    if r != [] {
      ClosedRolls(calls, packets, c, r, s);
    }
  }

  // ---- Every trace ----

  // Once a period has begun its starting time is not zero.
  lemma {:induction false} StartedLate(calls: seq<Call>, r: seq<nat>)
    requires Clocked(calls) && Timed(calls, r)
    ensures r != [] ==> BegunAt(calls, r) > 0
  {
    if |r| > 1 {
      assert calls[r[|r| - 1]].t1 - calls[r[|r| - 2]].t3 > 10_000_000_000;
    }
  }

  // One more call on a trace whose periods lie as they should.
  lemma {:induction false} OneMore(calls: seq<Call>, packets: seq<Packet>, c: Call, r: seq<nat>, s: Cut)
    requires LaidAs(calls, packets, r, s) && Clocked(calls)
    requires PeriodOver(s.fromTime, c) <==> c.t1 - s.fromTime > 10_000_000_000
    ensures LaidAs(calls + [c], packets + [c.p], if PeriodOver(s.fromTime, c) then r + [|calls|] else r, CutStep(s, c))
  {
    StartedLate(calls, r);
    if PeriodOver(s.fromTime, c) {
      TimedRolls(calls, c, r);
      CutRolls(calls, packets, c, r, s);
    } else {
      TimedStays(calls, c, r);
      CutStays(calls, packets, c, r, s);
    }
  }

  lemma {:induction false} ClockedBefore(calls: seq<Call>, c: Call)
    requires Clocked(calls + [c])
    ensures Clocked(calls) && c.t1 <= c.t2 <= c.t3
    ensures calls != [] ==> calls[|calls| - 1].t3 <= c.t1
  {
    var all := calls + [c];
    assert forall k | 0 <= k < |calls| :: all[k] == calls[k];
    assert all[|calls|] == c;
  }

  lemma {:induction false} OverSnoc(calls: seq<Call>, c: Call)
    requires Clocked(calls + [c])
    ensures PeriodOver(CutOf(calls).fromTime, c) <==> c.t1 - CutOf(calls).fromTime > 10_000_000_000
  {
    ClockedBefore(calls, c);
    CutSpaced(calls);
    ElapsedExact(c, CutOf(calls).fromTime);
  }

  lemma {:induction false} CutSnoc(calls: seq<Call>, c: Call)
    ensures CutOf(calls + [c]) == CutStep(CutOf(calls), c) && PacketsIn(calls + [c]) == PacketsIn(calls) + [c.p]
  {
    assert (calls + [c])[..|calls|] == calls;
  }

  lemma {:induction false} NothingLaid(calls: seq<Call>, packets: seq<Packet>, r: seq<nat>, s: Cut)
    requires |calls| == |packets| == |r| == |s.closed| == |s.open| == s.fromTime == 0
    ensures LaidAs(calls, packets, r, s)
  {
    assert |packets[0..]| == 0;
  }

  // The periods into which the calls are cut begin with these calls.
  ghost predicate Laid(calls: seq<Call>, r: seq<nat>) {
    LaidAs(calls, PacketsIn(calls), r, CutOf(calls))
  }

  lemma {:induction false} Start(calls: seq<Call>, r: seq<nat>)
    requires |calls| == |r| == 0
    ensures Laid(calls, r)
  {
    NothingLaid(calls, PacketsIn(calls), r, CutOf(calls));
  }

  lemma {:induction false} LaidNext(calls: seq<Call>, c: Call, r: seq<nat>) returns (r': seq<nat>)
    requires Clocked(calls + [c]) && Laid(calls, r)
    ensures Laid(calls + [c], r')
  {
    r' := if PeriodOver(CutOf(calls).fromTime, c) then r + [|calls|] else r;
    ClockedBefore(calls, c);
    OverSnoc(calls, c);
    CutSnoc(calls, c);
    OneMore(calls, PacketsIn(calls), c, r, CutOf(calls));
  }

  // Call by call; the argument `none` is the empty sequence the trace starts with.
  lemma {:induction false} Laying(calls: seq<Call>, none: seq<nat>) returns (r: seq<nat>)
    requires Clocked(calls) && |none| == 0
    ensures Laid(calls, r)
    decreases |calls|
  {
    if |calls| == 0 {
      r := none;
      Start(calls, r);
    } else {
      var before, c := calls[..|calls| - 1], calls[|calls| - 1];
      assert calls == before + [c];
      ClockedBefore(before, c);
      var r' := Laying(before, none);
      r := LaidNext(before, c, r');
    }
  }

  // Where the periods of a trace lie, under one non-decreasing clock.
  lemma {:induction false} PeriodBounds(calls: seq<Call>) returns (r: seq<nat>)
    requires Clocked(calls)
    ensures Timed(calls, r) && |PacketsIn(calls)| == |calls|
    ensures CutAt(calls, PacketsIn(calls), r, CutOf(calls))
  {
    r := Laying(calls, []);
  }
}
