// Traces the module can really receive: any periods, under one clock, and two that raise false alarms.
module Traces {
  import opened TrafficTypes
  import opened FirstLayer
  import opened Detector
  import opened Window
  import opened Clock

  // ---- A trace for any list of periods ----

  // Packets arriving together, at 11 s times the number of their period.
  const SPACING: int := 11_000_000_000
  const MOST_PERIODS: nat := 1_000_000_000

  function Time(n: nat): u64
    requires n <= MOST_PERIODS
  {
    SPACING * n
  }

  function Burst(ps: seq<Packet>, t: u64): (calls: seq<Call>)
    ensures |calls| == |ps|
    ensures forall k | 0 <= k < |ps| :: calls[k] == Call(ps[k], t, t, t)
  {
    seq(|ps|, k requires 0 <= k < |ps| => Call(ps[k], t, t, t))
  }

  function Trace(pss: seq<seq<Packet>>): seq<Call>
    requires |pss| <= MOST_PERIODS
  {
    if pss == [] then [] else Trace(pss[..|pss| - 1]) + Burst(pss[|pss| - 1], Time(|pss|))
  }

  ghost predicate Busy(pss: seq<seq<Packet>>) {
    |pss| <= MOST_PERIODS && forall k | 0 <= k < |pss| :: pss[k] != []
  }

  // Period k is closed by the first packet of the period after it.
  ghost function PeriodsOf(pss: seq<seq<Packet>>): (periods: seq<Period>)
    requires |pss| < MOST_PERIODS
    ensures |periods| == |pss|
    ensures forall k | 0 <= k < |pss| :: periods[k] == Period(pss[k], 11 * (k + 2))
  {
    seq(|pss|, k requires 0 <= k < |pss| => Period(pss[k], 11 * (k + 2)))
  }

  lemma {:induction false} BurstSnoc(calls: seq<Call>, ps: seq<Packet>, t: u64)
    requires ps != []
    ensures var init, last := ps[..|ps| - 1], ps[|ps| - 1];
            ps == init + [last] && calls + Burst(ps, t) == calls + Burst(init, t) + [Call(last, t, t, t)]
  {
  }

  // A packet within the period is added to the open one.
  lemma {:induction false} CallStays(calls: seq<Call>, p: Packet, t: u64)
    requires CutOf(calls).fromTime == t
    ensures CutOf(calls + [Call(p, t, t, t)]) == CutOf(calls).(open := CutOf(calls).open + [p])
  {
    assert (calls + [Call(p, t, t, t)])[..|calls|] == calls;
  }

  lemma {:induction false} BurstStays(calls: seq<Call>, ps: seq<Packet>, t: u64)
    requires CutOf(calls).fromTime == t
    ensures CutOf(calls + Burst(ps, t)) == CutOf(calls).(open := CutOf(calls).open + ps)
    decreases |ps|
  {
    if ps == [] {
      assert calls + Burst(ps, t) == calls && CutOf(calls).open + ps == CutOf(calls).open;
    } else {
      var init, last := ps[..|ps| - 1], ps[|ps| - 1];
      BurstSnoc(calls, ps, t);
      BurstStays(calls, init, t);
      CallStays(calls + Burst(init, t), last, t);
      assert CutOf(calls).open + ps == CutOf(calls).open + init + [last];
    }
  }

  lemma {:induction false} FirstRolls(calls: seq<Call>, p: Packet, t: u64)
    requires t == CutOf(calls).fromTime + SPACING
    ensures var s := CutOf(calls);
            CutOf(calls + [Call(p, t, t, t)])
            == if s.fromTime == 0 then Cut(s.closed, s.open + [p], t)
               else Cut(s.closed + [Period(s.open, t / NS_PER_SECOND)], [p], t)
  {
    var calls' := calls + [Call(p, t, t, t)];
    assert calls'[..|calls|] == calls;
    assert PeriodOver(CutOf(calls).fromTime, Call(p, t, t, t));
  }

  lemma {:induction false} BurstFirst(calls: seq<Call>, ps: seq<Packet>, t: u64)
    requires ps != []
    ensures calls + Burst(ps, t) == calls + [Call(ps[0], t, t, t)] + Burst(ps[1..], t)
  {
  }

  lemma {:induction false} OpenFirst(open: seq<Packet>, ps: seq<Packet>)
    requires ps != []
    ensures [ps[0]] + ps[1..] == ps && open + [ps[0]] + ps[1..] == open + ps
  {
  }

  // The first packet after 11 s closes the period, and the others join it in the next.
  lemma {:induction false} BurstRolls(calls: seq<Call>, ps: seq<Packet>, t: u64)
    requires ps != [] && t == CutOf(calls).fromTime + SPACING
    ensures var s := CutOf(calls);
            CutOf(calls + Burst(ps, t))
            == if s.fromTime == 0 then Cut(s.closed, s.open + ps, t)
               else Cut(s.closed + [Period(s.open, t / NS_PER_SECOND)], ps, t)
  {
    FirstRolls(calls, ps[0], t);
    BurstFirst(calls, ps, t);
    BurstStays(calls + [Call(ps[0], t, t, t)], ps[1..], t);
    OpenFirst(CutOf(calls).open, ps);
  }

  lemma {:induction false} PeriodsSnoc(pss: seq<seq<Packet>>, ps: seq<Packet>)
    requires |pss| + 1 < MOST_PERIODS
    ensures PeriodsOf(pss + [ps]) == PeriodsOf(pss) + [Period(ps, 11 * (|pss| + 2))]
  {
  }

  lemma StampOf(n: nat)
    requires n <= MOST_PERIODS
    ensures Time(n) / NS_PER_SECOND == 11 * n
  {
  }

  // One more period is one more burst.
  lemma {:induction false} TraceGrows(init: seq<seq<Packet>>, last: seq<Packet>)
    requires |init| < MOST_PERIODS
    ensures Trace(init + [last]) == Trace(init) + Burst(last, Time(|init| + 1))
  {
    assert (init + [last])[..|init|] == init;
  }

  lemma {:induction false} FirstPeriod(ps: seq<Packet>)
    requires ps != []
    ensures CutOf(Trace([ps])) == Cut([], ps, Time(1))
  {
    TraceGrows([], ps);
    assert [] + [ps] == [ps] && [] + Burst(ps, Time(1)) == Burst(ps, Time(1));
    BurstRolls([], ps, Time(1));
    assert [] + ps == ps;
  }

  // Given the cut of the periods so far, the cut after one more.
  lemma {:induction false} NextPeriod(init: seq<seq<Packet>>, open: seq<Packet>, last: seq<Packet>)
    requires |init| + 2 <= MOST_PERIODS && last != []
    requires CutOf(Trace(init + [open])) == Cut(PeriodsOf(init), open, Time(|init| + 1))
    ensures CutOf(Trace(init + [open] + [last])) == Cut(PeriodsOf(init + [open]), last, Time(|init| + 2))
  {
    TraceGrows(init + [open], last);
    BurstRolls(Trace(init + [open]), last, Time(|init| + 2));
    StampOf(|init| + 2);
    PeriodsSnoc(init, open);
  }

  lemma {:induction false} LastTwo(pss: seq<seq<Packet>>)
    requires |pss| >= 2
    ensures var n := |pss|; pss[..n - 1] == pss[..n - 2] + [pss[n - 2]] && pss == pss[..n - 1] + [pss[n - 1]]
    ensures var init := pss[..|pss| - 1]; init[..|init| - 1] == pss[..|pss| - 2] && init[|init| - 1] == pss[|pss| - 2]
  {
  }

  lemma {:induction false} TraceCut(pss: seq<seq<Packet>>)
    requires Busy(pss) && pss != []
    ensures CutOf(Trace(pss)) == Cut(PeriodsOf(pss[..|pss| - 1]), pss[|pss| - 1], Time(|pss|))
    decreases |pss|
  {
    var n := |pss|;
    if n == 1 {
      FirstPeriod(pss[0]);
      assert pss == [pss[0]] && PeriodsOf(pss[..0]) == [];
    } else {
      TraceCut(pss[..n - 1]);
      LastTwo(pss);
      NextPeriod(pss[..n - 2], pss[n - 2], pss[n - 1]);
    }
  }

  lemma {:induction false} TraceClocked(pss: seq<seq<Packet>>)
    requires Busy(pss)
    ensures Clocked(Trace(pss))
    ensures pss != [] ==> Trace(pss) != [] && Trace(pss)[|Trace(pss)| - 1].t3 == Time(|pss|)
    decreases |pss|
  {
    if pss != [] {
      var init := pss[..|pss| - 1];
      TraceClocked(init);
      assert init != [] ==> Trace(init)[|Trace(init)| - 1].t3 == Time(|init|) <= Time(|pss|);
    }
  }

  lemma BurstOne(p: Packet, t: u64)
    ensures Burst([p], t) == [Call(p, t, t, t)]
  {
    assert Burst([p], t)[0] == Call([p][0], t, t, t);
  }

  // One more period of a single packet is one more call.
  lemma {:induction false} TraceSnoc(pss: seq<seq<Packet>>, p: Packet)
    requires |pss| < MOST_PERIODS
    ensures var t := Time(|pss| + 1); Trace(pss + [[p]]) == Trace(pss) + [Call(p, t, t, t)]
  {
    BurstOne(p, Time(|pss| + 1));
    TraceGrows(pss, [p]);
  }

  ghost predicate AllFromHook(calls: seq<Call>) {
    forall k | 0 <= k < |calls| :: FromHook(calls[k].p)
  }

  ghost predicate Hooked(pss: seq<seq<Packet>>) {
    forall k, i | 0 <= k < |pss| && 0 <= i < |pss[k]| :: FromHook(pss[k][i])
  }

  lemma {:induction false} TraceFromHook(pss: seq<seq<Packet>>)
    requires Busy(pss) && Hooked(pss)
    ensures AllFromHook(Trace(pss))
    decreases |pss|
  {
    if pss != [] {
      var init := pss[..|pss| - 1];
      assert forall k | 0 <= k < |init| :: init[k] == pss[k];
      TraceFromHook(init);
    }
  }

  // Any non-empty periods, up to a billion of them, are the history of a trace under one clock.
  lemma {:induction false} Realised(pss: seq<seq<Packet>>, next: Packet) returns (calls: seq<Call>)
    requires |pss| < MOST_PERIODS && Busy(pss)
    requires FromHook(next) && Hooked(pss)
    ensures Clocked(calls) && AllFromHook(calls) && NonEmpty(CutOf(calls).closed)
    ensures CutOf(calls).closed == PeriodsOf(pss)
    ensures RunCalls(calls).window == LastN(History(PeriodsOf(pss)), SECOND_LAYER_TABLE_LENGTH)
  {
    var all := pss + [[next]];
    calls := Trace(all);
    TraceClocked(all);
    TraceFromHook(all);
    TraceCut(all);
    assert all[..|pss|] == pss;
    WindowIsHistory(calls);
  }

  // ---- Periods of equal packets ----

  function Copies(p: Packet, n: nat): (ps: seq<Packet>)
    ensures |ps| == n && forall q | q in ps :: q == p
  {
    seq(n, _ => p)
  }

  ghost function CopiesRow(p: Packet, n: nat): FirstRow
    requires n < U32 && n * p.len < U32
  {
    FirstRow(p.saddr, n, n * p.len, if p.tcp then n else 0, if p.syn then n else 0)
  }

  lemma BumpCopies(p: Packet, n: nat)
    requires n + 1 < U32 && n * p.len < U32 && (n + 1) * p.len < U32
    ensures Bump(CopiesRow(p, n), p) == CopiesRow(p, n + 1)
  {
    assert (n + 1) * p.len == n * p.len + p.len;
    WrapFits(n + 1);
    WrapFits((n + 1) * p.len);
  }

  lemma RecordSingle(row: FirstRow, p: Packet)
    requires row.saddr == p.saddr
    ensures Record([row], p) == [Bump(row, p)]
  {
  }

  lemma {:induction false} CopiesTable(p: Packet, n: nat)
    requires 1 <= n < U32 && n * p.len < U32
    ensures Table(Copies(p, n)) == [CopiesRow(p, n)]
    decreases n
  {
    assert Copies(p, n)[..n - 1] == Copies(p, n - 1);
    if n == 1 {
      assert Table([]) == [] && Record([], p) == [NewRow(p)];
    } else {
      assert n * p.len == (n - 1) * p.len + p.len;
      CopiesTable(p, n - 1);
      BumpCopies(p, n - 1);
      RecordSingle(CopiesRow(p, n - 1), p);
    }
  }

  lemma OneRow(row: FirstRow, stamp: u64)
    ensures Summary([row], stamp).m
            == Metrics(1, row.packets, row.len, row.packets, row.packets, row.len, row.len, row.tcp, row.syn)
  {
    SingleRow(row, PacketsOf);
    SingleRow(row, LenOf);
    SingleRow(row, TcpOf);
    SingleRow(row, SynOf);
  }

  const LARGE := Packet(1, 0xFFFF, false, false)

  lemma CopiesSummary(n: nat, stamp: u64)
    requires 1 <= n <= 65537
    ensures Summary(Table(Copies(LARGE, n)), stamp).m
            == Metrics(1, n, n * 0xFFFF, n, n, n * 0xFFFF, n * 0xFFFF, 0, 0)
  {
    CopiesTable(LARGE, n);
    OneRow(CopiesRow(LARGE, n), stamp);
  }

  // ---- False alarms ----

  lemma Column(row: SecondRow, p: Property)
    ensures Avg32([row], p) == AvgExact([row], p) == Get(row.m, p)
  {
    SingleRow(row, Col(p));
  }

  // After a period of 505 packets of 65535 bytes a period of 17 such packets is flagged; the
  // unbounded detector does not flag it.
  lemma FalseVerdict(before: SecondRow, m: Metrics)
    requires before.m == Metrics(1, 505, 33095175, 505, 505, 33095175, 33095175, 0, 0)
    requires m == Metrics(1, 17, 1114095, 17, 17, 1114095, 1114095, 0, 0)
    ensures Verdict([before], m) == TotLen && VerdictExact([before], m) == Undefined
  {
    Column(before, UniqueSaddrs);
    Column(before, Packets);
    Column(before, TotLen);
    assert Over32([before], m, TotLen) && !Over32([before], m, UniqueSaddrs) && !Over32([before], m, Packets);
    assert forall q: Property | q != Undefined && Rank(q) < Rank(TotLen) :: q == UniqueSaddrs || q == Packets;
    FirstMeaning(q => Over32([before], m, q), TotLen);
    forall q: Property ensures !OverExact([before], m, q) {
      Column(before, q);
    }
    FirstMeaning(q => OverExact([before], m, q), TotLen);
  }

  lemma {:induction false} SecondOfTwo(periods: seq<Period>)
    requires NonEmpty(periods) && |periods| == 2
    ensures var h := History(periods);
            && h[0].m == Summary(Table(periods[0].packets), periods[0].stamp).m
            && h[1] == Inspect([h[0]], Summary(Table(periods[1].packets), periods[1].stamp))
  {
    RowAt(periods, 0);
    RowAt(periods, 1);
    assert History(periods)[..1] == [History(periods)[0]];
  }

  // A trace on which wrap-around makes the module flag what it should not.
  lemma FalseAlarm() returns (calls: seq<Call>)
    ensures Clocked(calls) && AllFromHook(calls)
    ensures var w := RunCalls(calls).window;
            && |w| == 2 && w[1].crit == 1 && w[1].property == TotLen
            && VerdictExact([w[0]], w[1].m) == Undefined
  {
    var pss := [Copies(LARGE, 505), Copies(LARGE, 17)];
    calls := Realised(pss, LARGE);
    SecondOfTwo(PeriodsOf(pss));
    CopiesSummary(505, PeriodsOf(pss)[0].stamp);
    CopiesSummary(17, PeriodsOf(pss)[1].stamp);
    FalseVerdict(History(PeriodsOf(pss))[0], History(PeriodsOf(pss))[1].m);
  }

  // A trace of equal periods, 129 packets of 65535 bytes each, of which one is flagged.
  lemma SteadyFalseAlarm() returns (calls: seq<Call>)
    ensures Clocked(calls) && AllFromHook(calls) && NonEmpty(CutOf(calls).closed)
    ensures Repeats(CutOf(calls).closed, Copies(LARGE, 129))
    ensures !Unflagged(RunCalls(calls).window)
  {
    var ps := Copies(LARGE, 129);
    var pss := seq(SECOND_LAYER_TABLE_LENGTH, _ => ps);
    calls := Realised(pss, LARGE);
    CopiesSummary(129, 0);
    assert Get(Summary(Table(ps), 0).m, TotLen) == 8454015;
    SteadyAlarm(ps, PeriodsOf(pss));
  }
}
