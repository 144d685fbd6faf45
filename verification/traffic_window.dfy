// The second-layer table: a window of at most 512 period summaries, as values.
module Window {
  import opened TrafficTypes
  import opened FirstLayer
  import opened Detector

  // ---- One dump and one packet ----

  function Quotient(x: u32, n: nat): u32
    requires n >= 1
  {
    x / n
  }

  // The summary of a period, before the detector looks at it.
  function Summary(table: seq<FirstRow>, stamp: u64): SecondRow
    requires 1 <= |table| <= FIRST_LAYER_TABLE_LENGTH
  {
    var packets, len := Sum32(table, PacketsOf), Sum32(table, LenOf);
    SecondRow(
      stamp,
      Metrics(|table|, packets, len, Quotient(packets, |table|), Max32(table, PacketsOf),
              Quotient(len, |table|), Max32(table, LenOf), Sum32(table, TcpOf), Sum32(table, SynOf)),
      0, Undefined, NoKind)
  }

  // A queue that forgets its oldest element when it is full.
  function DropOldest(window: seq<SecondRow>): seq<SecondRow> {
    if |window| >= SECOND_LAYER_TABLE_LENGTH then window[1..] else window
  }

  function Push(window: seq<SecondRow>, row: SecondRow): seq<SecondRow> {
    var w := DropOldest(window);
    w + [Inspect(w, row)]
  }

  // The module state without the read cursor.
  datatype Monitor = Monitor(fromTime: u64, live: seq<FirstRow>, window: seq<SecondRow>)

  const EMPTY := Monitor(0, [], [])

  // Once a period has started it has a packet.
  predicate Ok(m: Monitor) {
    && |m.live| <= FIRST_LAYER_TABLE_LENGTH && |m.window| <= SECOND_LAYER_TABLE_LENGTH
    && (m.fromTime != 0 ==> m.live != [])
  }

  predicate PeriodOver(fromTime: u64, c: Call) { Wrap64(c.t1 - fromTime) > DUMP_NS_PERIOD }

  function Dump(m: Monitor, t: u64): Monitor
    requires Ok(m) && m.live != []
  {
    m.(live := [], window := Push(m.window, Summary(m.live, t / NS_PER_SECOND)))
  }

  // The test of the period at the start of add_packet_info.
  function Roll(m: Monitor, c: Call): (r: Monitor)
    requires Ok(m)
    ensures |r.live| <= FIRST_LAYER_TABLE_LENGTH && |r.window| <= SECOND_LAYER_TABLE_LENGTH
  {
    if !PeriodOver(m.fromTime, c) then m
    else if m.fromTime == 0 then m.(fromTime := c.t3)
    else Dump(m, c.t2).(fromTime := c.t3)
  }

  function AddPacket(m: Monitor, c: Call): (r: Monitor)
    requires Ok(m)
    ensures Ok(r)
  {
    var m1 := Roll(m, c);
    m1.(live := Record(m1.live, c.p))
  }

  function RunCalls(calls: seq<Call>): (m: Monitor)
    ensures Ok(m)
  {
    if calls == [] then EMPTY else AddPacket(RunCalls(calls[..|calls| - 1]), calls[|calls| - 1])
  }

  // ---- The trace cut into periods, without any table ----

  datatype Period = Period(packets: seq<Packet>, stamp: u64)

  datatype Cut = Cut(closed: seq<Period>, open: seq<Packet>, fromTime: u64)

  ghost function CutStep(s: Cut, c: Call): Cut {
    if !PeriodOver(s.fromTime, c) then s.(open := s.open + [c.p])
    else if s.fromTime == 0 then Cut(s.closed, s.open + [c.p], c.t3)
    else Cut(s.closed + [Period(s.open, c.t2 / NS_PER_SECOND)], [c.p], c.t3)
  }

  ghost function CutOf(calls: seq<Call>): Cut {
    if calls == [] then Cut([], [], 0) else CutStep(CutOf(calls[..|calls| - 1]), calls[|calls| - 1])
  }

  ghost predicate NonEmpty(periods: seq<Period>) {
    forall k | 0 <= k < |periods| :: periods[k].packets != []
  }

  ghost function LastN(s: seq<SecondRow>, n: nat): seq<SecondRow> {
    if |s| <= n then s else s[|s| - n..]
  }

  // The row written for a period after the rows in `before`.
  ghost function Judged(before: seq<SecondRow>, p: Period): (r: SecondRow)
    requires p.packets != []
    ensures r.fromTime == p.stamp
  {
    Inspect(LastN(before, MAX_HISTORY), Summary(Table(p.packets), p.stamp))
  }

  // All rows ever written, each judged against the at most 511 rows before it.
  ghost function History(periods: seq<Period>): (h: seq<SecondRow>)
    requires NonEmpty(periods)
    ensures |h| == |periods|
  {
    if periods == [] then []
    else
      var before, last := History(periods[..|periods| - 1]), periods[|periods| - 1];
      before + [Judged(before, last)]
  }

  lemma {:induction false} CutNonEmpty(calls: seq<Call>)
    ensures NonEmpty(CutOf(calls).closed)
    ensures CutOf(calls).fromTime != 0 ==> CutOf(calls).open != []
  {
    if calls != [] {
      CutNonEmpty(calls[..|calls| - 1]);
    }
  }

  lemma {:induction false} TableSnoc(ps: seq<Packet>, p: Packet)
    ensures Table(ps + [p]) == Record(Table(ps), p)
  {
    assert (ps + [p])[..|ps|] == ps;
  }

  lemma {:induction false} PushIsLastN(h: seq<SecondRow>, row: SecondRow)
    ensures var h' := h + [Inspect(LastN(h, MAX_HISTORY), row)];
            Push(LastN(h, SECOND_LAYER_TABLE_LENGTH), row) == LastN(h', SECOND_LAYER_TABLE_LENGTH)
  {
    var w := LastN(h, SECOND_LAYER_TABLE_LENGTH);
    assert DropOldest(w) == LastN(h, MAX_HISTORY);
  }

  lemma {:induction false} HistorySnoc(periods: seq<Period>, p: Period)
    requires NonEmpty(periods) && p.packets != []
    ensures History(periods + [p]) == History(periods) + [Judged(History(periods), p)]
  {
    assert (periods + [p])[..|periods|] == periods;
  }

  lemma DumpAgrees(m: Monitor, s: Cut, t: u64)
    requires NonEmpty(s.closed) && s.open != [] && Ok(m) && m.live == Table(s.open)
    requires m.window == LastN(History(s.closed), SECOND_LAYER_TABLE_LENGTH)
    ensures var period := Period(s.open, t / NS_PER_SECOND);
            Dump(m, t).window == LastN(History(s.closed + [period]), SECOND_LAYER_TABLE_LENGTH)
  {
    var period := Period(s.open, t / NS_PER_SECOND);
    HistorySnoc(s.closed, period);
    PushIsLastN(History(s.closed), Summary(Table(s.open), period.stamp));
  }

  lemma RollAgrees(m: Monitor, s: Cut, c: Call)
    requires NonEmpty(s.closed) && Ok(m) && (s.fromTime != 0 ==> s.open != [])
    requires m.fromTime == s.fromTime && m.live == Table(s.open)
    requires m.window == LastN(History(s.closed), SECOND_LAYER_TABLE_LENGTH)
    ensures NonEmpty(CutStep(s, c).closed)
    ensures Roll(m, c).window == LastN(History(CutStep(s, c).closed), SECOND_LAYER_TABLE_LENGTH)
  {
    if PeriodOver(s.fromTime, c) && s.fromTime != 0 {
      DumpAgrees(m, s, c.t2);
    }
  }

  lemma LiveAgrees(m: Monitor, s: Cut, c: Call)
    requires Ok(m) && m.fromTime == s.fromTime && m.live == Table(s.open)
    ensures AddPacket(m, c).live == Table(CutStep(s, c).open)
    ensures AddPacket(m, c).fromTime == CutStep(s, c).fromTime
  {
    TableSnoc(s.open, c.p);
    TableSnoc([], c.p);
    assert [] + [c.p] == [c.p];
  }

  // After any trace the first-layer table is that of the open period, and the window is
  // exactly the last 512 of all period summaries, in order, each with the verdict given
  // when it was written.
  lemma {:induction false} WindowIsHistory(calls: seq<Call>)
    ensures NonEmpty(CutOf(calls).closed)
    ensures RunCalls(calls).fromTime == CutOf(calls).fromTime
    ensures RunCalls(calls).live == Table(CutOf(calls).open)
    ensures RunCalls(calls).window == LastN(History(CutOf(calls).closed), SECOND_LAYER_TABLE_LENGTH)
  {
    CutNonEmpty(calls);
    if calls != [] {
      var before, c := calls[..|calls| - 1], calls[|calls| - 1];
      WindowIsHistory(before);
      CutNonEmpty(before);
      RollAgrees(RunCalls(before), CutOf(before), c);
      LiveAgrees(RunCalls(before), CutOf(before), c);
    }
  }

  // ---- Verdicts stay ----

  lemma {:induction false} HistoryPrefix(periods: seq<Period>, n: nat)
    requires NonEmpty(periods) && n <= |periods|
    ensures History(periods[..n]) == History(periods)[..n]
  {
    if n == |periods| {
      assert periods[..n] == periods;
    } else {
      var init := periods[..|periods| - 1];
      assert init[..n] == periods[..n];
      HistoryPrefix(init, n);
    }
  }

  lemma {:induction false} CutGrows(calls: seq<Call>, n: nat)
    requires n <= |calls|
    ensures CutOf(calls[..n]).closed <= CutOf(calls).closed
  {
    if n == |calls| {
      assert calls[..n] == calls;
    } else {
      var init := calls[..|calls| - 1];
      assert init[..n] == calls[..n];
      CutGrows(init, n);
    }
  }

  // No later packet changes a row: the rows written during a prefix of a trace are the
  // first rows of the whole history, flags included.
  lemma {:induction false} VerdictsStay(calls: seq<Call>, n: nat)
    requires n <= |calls|
    ensures NonEmpty(CutOf(calls).closed) && NonEmpty(CutOf(calls[..n]).closed)
    ensures History(CutOf(calls[..n]).closed) <= History(CutOf(calls).closed)
  {
    CutNonEmpty(calls);
    CutNonEmpty(calls[..n]);
    CutGrows(calls, n);
    var all, some := CutOf(calls).closed, CutOf(calls[..n]).closed;
    HistoryPrefix(all, |some|);
    assert some == all[..|some|];
  }

  // Row k of the history is the summary of period k, judged against the 511 rows before it.
  lemma {:induction false} RowAt(periods: seq<Period>, k: nat)
    requires NonEmpty(periods) && k < |periods|
    ensures History(periods)[k] == Judged(History(periods)[..k], periods[k])
  {
    var init, last := periods[..|periods| - 1], periods[|periods| - 1];
    assert periods == init + [last];
    HistorySnoc(init, last);
    SnocFacts(History(init), Judged(History(init), last), k);
    if k < |init| {
      RowAt(init, k);
    }
  }

  lemma {:induction false} SnocFacts<T>(s: seq<T>, x: T, k: nat)
    requires k <= |s|
    ensures (s + [x])[..k] == s[..k] && (s + [x])[k] == if k < |s| then s[k] else x
    ensures s[..|s|] == s
  {
  }

  // The rows before row k that it was compared with.
  ghost function HistoryBefore(periods: seq<Period>, k: nat): (h: seq<SecondRow>)
    requires NonEmpty(periods) && k < |periods|
    ensures |h| == Least(k, MAX_HISTORY)
  {
    LastN(History(periods)[..k], MAX_HISTORY)
  }

  function Least(a: nat, b: nat): nat { if a < b then a else b }

  // Wherever nothing wraps in the rows before row k, its verdict is that of unbounded
  // arithmetic over those rows, whatever comes later.
  lemma {:induction false} HistoryVerdict(periods: seq<Period>, k: nat, p: Property)
    requires NonEmpty(periods) && k < |periods| && p != Undefined && NoWraps(HistoryBefore(periods, k))
    ensures var row, before := History(periods)[k], HistoryBefore(periods, k);
            && (row.crit == 1 <==> exists q: Property :: q != Undefined && OverExact(before, row.m, q))
            && (row.property == p
                <==> OverExact(before, row.m, p)
                     && forall q: Property | q != Undefined && Rank(q) < Rank(p) :: !OverExact(before, row.m, q))
  {
    RowAt(periods, k);
    ExactVerdict(HistoryBefore(periods, k), Summary(Table(periods[k].packets), periods[k].stamp), p);
  }

  // In every row ever written flag, type and property agree; the type is never FALL.
  lemma {:induction false} HistoryCoherent(periods: seq<Period>)
    requires NonEmpty(periods)
    ensures forall r | r in History(periods) :: Coherent(r)
  {
    if periods != [] {
      HistoryCoherent(periods[..|periods| - 1]);
    }
  }

  // So flag, type and property agree in every row a reader can see.
  lemma {:induction false} WindowCoherent(calls: seq<Call>)
    ensures forall r | r in RunCalls(calls).window ::
              && (r.crit == 0 || r.crit == 1) && r.kind != Fall
              && (r.crit == 1 <==> r.kind == Increase) && (r.crit == 1 <==> r.property != Undefined)
  {
    WindowIsHistory(calls);
    var history := History(CutOf(calls).closed);
    HistoryCoherent(CutOf(calls).closed);
    forall r | r in LastN(history, SECOND_LAYER_TABLE_LENGTH)
      ensures (r.crit == 0 || r.crit == 1) && r.kind != Fall
      ensures (r.crit == 1 <==> r.kind == Increase) && (r.crit == 1 <==> r.property != Undefined)
    {
      assert r in history;
      assert Coherent(r);
    }
  }

  // ---- Steady traffic ----

  ghost predicate Steady(periods: seq<Period>, m: Metrics) {
    forall k | 0 <= k < |periods| ::
      periods[k].packets != [] && Summary(Table(periods[k].packets), periods[k].stamp).m == m
  }

  ghost predicate Unflagged(rows: seq<SecondRow>) {
    forall k | 0 <= k < |rows| :: rows[k].crit == 0
  }

  // No field makes a sum over h rows or the product with 130 wrap.
  predicate AllSmall(h: nat, m: Metrics) {
    forall p :: Small(h, Get(m, p))
  }

  lemma {:induction false} SteadyRow(periods: seq<Period>, m: Metrics, k: nat)
    requires NonEmpty(periods) && Steady(periods, m) && k < |periods|
    ensures History(periods)[k].m == m
  {
    RowAt(periods, k);
  }

  ghost predicate AllEqual(rows: seq<SecondRow>, m: Metrics) {
    forall j | 0 <= j < |rows| :: rows[j].m == m
  }

  lemma {:induction false} SteadyRows(periods: seq<Period>, m: Metrics)
    requires NonEmpty(periods) && Steady(periods, m)
    ensures AllEqual(History(periods), m)
  {
    forall j | 0 <= j < |periods| ensures History(periods)[j].m == m {
      SteadyRow(periods, m, j);
    }
  }

  lemma {:induction false} PrefixEqual(rows: seq<SecondRow>, k: nat, m: Metrics)
    requires k <= |rows| && AllEqual(rows, m)
    ensures |rows[..k]| == k && AllEqual(rows[..k], m)
  {
  }

  lemma {:induction false} LastEqual(rows: seq<SecondRow>, n: nat, m: Metrics)
    requires AllEqual(rows, m)
    ensures |LastN(rows, n)| == Least(|rows|, n) && AllEqual(LastN(rows, n), m)
  {
  }

  lemma {:induction false} JudgedFlag(before: seq<SecondRow>, p: Period, m: Metrics)
    requires p.packets != [] && Summary(Table(p.packets), p.stamp).m == m && AllEqual(before, m)
    ensures Judged(before, p).crit == 0 <==> before == [] || AllSmall(Least(|before|, MAX_HISTORY), m)
  {
    LastEqual(before, MAX_HISTORY, m);
    RepeatedInspect(LastN(before, MAX_HISTORY), Summary(Table(p.packets), p.stamp));
  }

  lemma {:induction false} SteadyFlag(periods: seq<Period>, m: Metrics, k: nat)
    requires NonEmpty(periods) && Steady(periods, m) && k < |periods|
    ensures History(periods)[k].crit == 0 <==> k == 0 || AllSmall(Least(k, MAX_HISTORY), m)
  {
    RowAt(periods, k);
    SteadyRows(periods, m);
    PrefixEqual(History(periods), k, m);
    JudgedFlag(History(periods)[..k], periods[k], m);
  }

  lemma AllSmallShrinks(h: nat, h': nat, m: Metrics)
    requires h <= h' && AllSmall(h', m)
    ensures AllSmall(h, m)
  {
    forall p ensures Small(h, Get(m, p)) {
      assert Small(h', Get(m, p));
      MulOrder(Get(m, p), h, h');
    }
  }

  // Periods with equal summaries are left unflagged exactly when in no field the sum over the
  // rows before the last one (511 at most) or the 130-fold of the value exceeds 32 bits.
  lemma {:induction false} SteadyTraffic(periods: seq<Period>, m: Metrics)
    requires NonEmpty(periods) && Steady(periods, m)
    ensures Unflagged(History(periods)) <==> |periods| <= 1 || AllSmall(Least(|periods| - 1, MAX_HISTORY), m)
  {
    forall k | 0 <= k < |periods|
      ensures History(periods)[k].crit == 0 <==> k == 0 || AllSmall(Least(k, MAX_HISTORY), m)
    {
      SteadyFlag(periods, m, k);
    }
    if |periods| > 1 && AllSmall(Least(|periods| - 1, MAX_HISTORY), m) {
      forall k | 0 < k < |periods| ensures AllSmall(Least(k, MAX_HISTORY), m) {
        AllSmallShrinks(Least(k, MAX_HISTORY), Least(|periods| - 1, MAX_HISTORY), m);
      }
    }
  }

  ghost predicate Repeats(periods: seq<Period>, ps: seq<Packet>) {
    forall k | 0 <= k < |periods| :: periods[k].packets == ps
  }

  lemma SmallField(m: Metrics)
    ensures AllSmall(MAX_HISTORY, m) <==> forall p :: Get(m, p) <= SAFE_VALUE
  {
    forall p ensures Small(MAX_HISTORY, Get(m, p)) <==> Get(m, p) <= SAFE_VALUE {
      SmallMeans(Get(m, p));
    }
  }

  lemma {:induction false} SteadyWithin(periods: seq<Period>, m: Metrics)
    requires NonEmpty(periods) && Steady(periods, m) && AllSmall(MAX_HISTORY, m)
    ensures Unflagged(History(periods))
  {
    SteadyTraffic(periods, m);
    if |periods| > 1 {
      AllSmallShrinks(Least(|periods| - 1, MAX_HISTORY), MAX_HISTORY, m);
    }
  }

  // The same packets in every period are never flagged, however long it lasts, exactly when
  // no field of their summary exceeds 8405024.
  lemma {:induction false} SteadyForever(ps: seq<Packet>)
    requires ps != []
    ensures (forall periods | Repeats(periods, ps) :: NonEmpty(periods) && Unflagged(History(periods)))
            <==> forall p :: Get(Summary(Table(ps), 0).m, p) <= SAFE_VALUE
  {
    var m := Summary(Table(ps), 0).m;
    SmallField(m);
    if AllSmall(MAX_HISTORY, m) {
      forall periods | Repeats(periods, ps) ensures NonEmpty(periods) && Unflagged(History(periods)) {
        SteadyWithin(periods, m);
      }
    } else {
      SteadyAlarm(ps, seq(SECOND_LAYER_TABLE_LENGTH, _ => Period(ps, 0)));
    }
  }

  // A history as long as the window is enough to raise the alarm.
  lemma {:induction false} SteadyAlarm(ps: seq<Packet>, periods: seq<Period>)
    requires ps != [] && Repeats(periods, ps) && |periods| >= SECOND_LAYER_TABLE_LENGTH
    requires exists p :: Get(Summary(Table(ps), 0).m, p) > SAFE_VALUE
    ensures NonEmpty(periods) && !Unflagged(History(periods))
  {
    var m := Summary(Table(ps), 0).m;
    SmallField(m);
    SteadyTraffic(periods, m);
  }
}
