// Time stamps under one non-decreasing clock, and the statistics read_stats derives from them.
module Clock {
  import opened TrafficTypes
  import opened Window

  // The readings of all calls are those of one non-decreasing clock.
  ghost predicate Clocked(calls: seq<Call>) {
    && (forall k | 0 <= k < |calls| :: calls[k].t1 <= calls[k].t2 <= calls[k].t3)
    && (forall k, m | 0 <= k < m < |calls| :: calls[k].t3 <= calls[m].t1)
  }

  // Stamps are positive and at least ten seconds apart.
  ghost predicate SpacedPeriods(periods: seq<Period>) {
    && (forall k | 0 <= k < |periods| :: periods[k].stamp > 0)
    && (forall k | 0 < k < |periods| :: periods[k].stamp >= periods[k - 1].stamp + 10)
  }

  ghost predicate SpacedRows(rows: seq<SecondRow>) {
    && (forall k | 0 <= k < |rows| :: rows[k].fromTime > 0)
    && (forall k | 0 < k < |rows| :: rows[k].fromTime >= rows[k - 1].fromTime + 10)
  }

  // What the clock promises about a cut at time `now`.
  ghost predicate SpacedCut(s: Cut, now: u64) {
    && SpacedPeriods(s.closed)
    && s.fromTime <= now
    && (s.fromTime != 0 ==> s.fromTime > DUMP_NS_PERIOD)
    && (s.closed != [] ==> s.closed[|s.closed| - 1].stamp <= s.fromTime / NS_PER_SECOND && s.fromTime != 0)
  }

  lemma StepSpaced(s: Cut, c: Call)
    requires SpacedCut(s, c.t1) && c.t1 <= c.t2 <= c.t3
    ensures SpacedCut(CutStep(s, c), c.t3)
  {
    ElapsedExact(c, s.fromTime);
    if PeriodOver(s.fromTime, c) && s.fromTime != 0 {
      TenSeconds(s.fromTime, c.t2);
    }
  }

  lemma {:induction false} CutSpaced(calls: seq<Call>)
    requires Clocked(calls)
    ensures SpacedCut(CutOf(calls), if calls == [] then 0 else calls[|calls| - 1].t3)
    ensures SpacedPeriods(CutOf(calls).closed)
  {
    if calls != [] {
      var before, c := calls[..|calls| - 1], calls[|calls| - 1];
      CutSpaced(before);
      StepSpaced(CutOf(before), c);
    }
  }

  lemma ElapsedExact(c: Call, fromTime: u64)
    requires fromTime <= c.t1
    ensures PeriodOver(fromTime, c) <==> c.t1 - fromTime > DUMP_NS_PERIOD
  {
  }

  lemma TenSeconds(t: int, t': int)
    requires 0 <= t && t' > t + DUMP_NS_PERIOD
    ensures t' / NS_PER_SECOND >= t / NS_PER_SECOND + 10
  {
  }

  lemma {:induction false} HistoryTime(periods: seq<Period>, k: nat)
    requires NonEmpty(periods) && k < |periods|
    ensures History(periods)[k].fromTime == periods[k].stamp
  {
    RowAt(periods, k);
  }

  // The rows of the window carry positive time stamps at least ten seconds apart.
  lemma {:induction false} WindowSpaced(calls: seq<Call>)
    requires Clocked(calls)
    ensures SpacedRows(RunCalls(calls).window)
  {
    CutSpaced(calls);
    WindowIsHistory(calls);
    HistorySpaced(CutOf(calls).closed);
    SuffixSpaced(History(CutOf(calls).closed), SECOND_LAYER_TABLE_LENGTH);
  }

  lemma {:induction false} HistorySpaced(periods: seq<Period>)
    requires NonEmpty(periods) && SpacedPeriods(periods)
    ensures SpacedRows(History(periods))
  {
    forall k | 0 <= k < |periods| ensures History(periods)[k].fromTime == periods[k].stamp {
      HistoryTime(periods, k);
    }
  }

  lemma {:induction false} SuffixSpaced(rows: seq<SecondRow>, n: nat)
    requires SpacedRows(rows)
    ensures SpacedRows(LastN(rows, n))
  {
  }

  // ---- read_stats ----

  datatype Stats = Stats(
    historyLength: u32, currentLength: u32, period: u64, critCount: u32, firstCrit: u64, lastCrit: u64)

  // The scan over the rows: number of flagged rows and first and last time stamp, where
  // 0 stands for "none yet".
  function Scan(rows: seq<SecondRow>): (r: (nat, u64, u64))
    ensures r.0 <= |rows|
  {
    if rows == [] then (0, 0, 0)
    else
      var (n, first, last), row := Scan(rows[..|rows| - 1]), rows[|rows| - 1];
      if row.crit > 0 then (n + 1, if first == 0 then row.fromTime else first, row.fromTime)
      else (n, first, last)
  }

  ghost function Flagged(rows: seq<SecondRow>): set<int> {
    set k | 0 <= k < |rows| && rows[k].crit > 0
  }

  // i is the earliest and j the latest flagged row.
  ghost predicate Extremes(rows: seq<SecondRow>, i: int, j: int) {
    i in Flagged(rows) && j in Flagged(rows) && forall k | k in Flagged(rows) :: i <= k <= j
  }

  // The two times reported are those of the earliest and the latest flagged row.
  ghost predicate Reports(rows: seq<SecondRow>, first: int, last: int) {
    if Flagged(rows) == {} then first == last == 0
    else exists i, j :: Extremes(rows, i, j) && first == rows[i].fromTime && last == rows[j].fromTime
  }

  lemma {:induction false} FlaggedStep(init: seq<SecondRow>, row: SecondRow)
    ensures Flagged(init + [row]) == if row.crit > 0 then Flagged(init) + {|init|} else Flagged(init)
    ensures |Flagged(init + [row])| == |Flagged(init)| + if row.crit > 0 then 1 else 0
  {
    assert Flagged(init + [row]) == if row.crit > 0 then Flagged(init) + {|init|} else Flagged(init);
  }

  lemma {:induction false} ReportsStep(init: seq<SecondRow>, row: SecondRow, first: int, last: int)
    requires Reports(init, first, last) && forall k | 0 <= k < |init| :: init[k].fromTime > 0
    ensures row.crit > 0 ==> Reports(init + [row], if first == 0 then row.fromTime else first, row.fromTime)
    ensures row.crit <= 0 ==> Reports(init + [row], first, last)
  {
    var rows, n := init + [row], |init|;
    FlaggedStep(init, row);
    if Flagged(init) == {} {
      assert row.crit > 0 ==> Extremes(rows, n, n);
    } else {
      var i, j :| Extremes(init, i, j) && first == init[i].fromTime && last == init[j].fromTime;
      assert if row.crit > 0 then Extremes(rows, i, n) else Extremes(rows, i, j);
    }
  }

  lemma {:induction false} ScanStep(init: seq<SecondRow>, row: SecondRow)
    ensures Scan(init + [row])
            == if row.crit > 0
               then (Scan(init).0 + 1, if Scan(init).1 == 0 then row.fromTime else Scan(init).1, row.fromTime)
               else Scan(init)
  {
    assert (init + [row])[..|init|] == init;
  }

  // With positive time stamps the sentinel hides nothing: the count is that of the flagged
  // rows, and the two times are those of the earliest and the latest of them.
  lemma {:induction false} ScanMeaning(rows: seq<SecondRow>)
    requires forall k | 0 <= k < |rows| :: rows[k].fromTime > 0
    ensures Scan(rows).0 == |Flagged(rows)| && Reports(rows, Scan(rows).1, Scan(rows).2)
  {
    if rows != [] {
      var init, row := rows[..|rows| - 1], rows[|rows| - 1];
      ScanMeaning(init);
      assert rows == init + [row];
      FlaggedStep(init, row);
      ReportsStep(init, row, Scan(init).1, Scan(init).2);
      ScanStep(init, row);
    }
  }

  function StatsOf(window: seq<SecondRow>): Stats
    requires |window| <= SECOND_LAYER_TABLE_LENGTH
  {
    var (n, first, last) := Scan(window);
    var start, finish := if window == [] then 0 else window[0].fromTime,
                         if window == [] then 0 else window[|window| - 1].fromTime;
    Stats(SECOND_LAYER_TABLE_LENGTH, |window|, Wrap64(finish - start), n, first, last)
  }

  lemma {:induction false} SpacedSpan(rows: seq<SecondRow>)
    requires SpacedRows(rows) && rows != []
    ensures rows[|rows| - 1].fromTime - rows[0].fromTime >= 10 * (|rows| - 1)
  {
    if |rows| > 1 {
      var init := rows[..|rows| - 1];
      assert init[|init| - 1] == rows[|rows| - 2];
      SpacedSpan(init);
    }
  }

  // The reported span never underflows and covers at least ten seconds a row.
  lemma {:induction false} StatsSpan(calls: seq<Call>)
    requires Clocked(calls) && RunCalls(calls).window != []
    ensures var w := RunCalls(calls).window;
            && StatsOf(w).period == w[|w| - 1].fromTime - w[0].fromTime
            && StatsOf(w).period >= 10 * (|w| - 1)
  {
    WindowSpaced(calls);
    WindowSpan(RunCalls(calls).window);
  }

  lemma {:induction false} WindowSpan(w: seq<SecondRow>)
    requires w != [] && |w| <= SECOND_LAYER_TABLE_LENGTH && SpacedRows(w)
    ensures StatsOf(w).period == w[|w| - 1].fromTime - w[0].fromTime >= 10 * (|w| - 1)
  {
    SpacedSpan(w);
  }

  // The lengths reported: the capacity of the window, and how many rows it holds.
  lemma StatsLengths(calls: seq<Call>)
    ensures var stats, closed := StatsOf(RunCalls(calls).window), |CutOf(calls).closed|;
            && stats.historyLength == 512
            && stats.currentLength == (if closed < 512 then closed else 512)
            && (closed == 0 ==> stats.period == stats.critCount == stats.firstCrit == stats.lastCrit == 0)
  {
    WindowIsHistory(calls);
  }

  // read_stats after any trace reports the earliest and the latest flagged row.
  lemma {:induction false} StatsMeaning(calls: seq<Call>)
    requires Clocked(calls)
    ensures var w := RunCalls(calls).window;
            StatsOf(w).critCount == |Flagged(w)| && Reports(w, StatsOf(w).firstCrit, StatsOf(w).lastCrit)
  {
    WindowSpaced(calls);
    var w := RunCalls(calls).window;
    ScanMeaning(w);
  }
}
