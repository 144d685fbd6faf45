// What the summary rows say about the packets of their periods.
module Conservation {
  import opened TrafficTypes
  import opened FirstLayer
  import opened Detector
  import opened Window

  // ---- One period ----

  // A summary counts the admitted packets of its period, their bytes and their TCP and SYN
  // packets, modulo 2^32, and at most 64 of its distinct sources.
  lemma {:induction false} SummaryCounts(ps: seq<Packet>, stamp: u64)
    requires ps != []
    ensures var m := Summary(Table(ps), stamp).m;
            && m.unique == |First64(Sources(ps))|
            && m.packets == Wrap(SumFrom(ps, Admitted(ps), One))
            && m.totLen == Wrap(SumFrom(ps, Admitted(ps), Bytes))
            && m.totTcp == Wrap(SumFrom(ps, Admitted(ps), Tcp))
            && m.totSyn == Wrap(SumFrom(ps, Admitted(ps), Syn))
            && m.avgPackets == m.packets / m.unique && m.avgLen == m.totLen / m.unique
  {
    TableSums(ps);
    TableIsMapFold(ps);
  }

  // x is the largest amount, modulo 2^32, that one admitted source contributes.
  ghost predicate LargestShare(ps: seq<Packet>, x: u32, w: Packet -> nat) {
    && (exists s :: s in Admitted(ps) && x == Wrap(SumFrom(ps, {s}, w)))
    && (forall s | s in Admitted(ps) :: Wrap(SumFrom(ps, {s}, w)) <= x)
  }

  lemma {:induction false} ColumnMax(ps: seq<Packet>, p: Property, col: FirstRow -> u32, w: Packet -> nat)
    requires ps != [] && SameColumn(p, col, w)
    ensures LargestShare(ps, Max32(Table(ps), col), w)
  {
    TableIsMapFold(ps);
    MaxIsMax(Table(ps), col);
    var table, sources := Table(ps), First64(Sources(ps));
    forall k | 0 <= k < |table| ensures col(table[k]) == Wrap(SumFrom(ps, {sources[k]}, w)) {
      assert table[k] == RowFor(ps, Sources(ps)[k]);
    }
    var k :| 0 <= k < |table| && col(table[k]) == Max32(table, col);
    assert sources[k] in Admitted(ps);
    forall s | s in Admitted(ps) ensures Wrap(SumFrom(ps, {s}, w)) <= Max32(table, col) {
      var j :| 0 <= j < |sources| && sources[j] == s;
      assert col(table[j]) <= Max32(table, col);
    }
  }

  // The maxima of a summary are those of its sources' packets and bytes.
  lemma {:induction false} SummaryMaxima(ps: seq<Packet>, stamp: u64)
    requires ps != []
    ensures LargestShare(ps, Summary(Table(ps), stamp).m.maxPackets, One)
    ensures LargestShare(ps, Summary(Table(ps), stamp).m.maxLen, Bytes)
  {
    ColumnMax(ps, Packets, PacketsOf, One);
    ColumnMax(ps, TotLen, LenOf, Bytes);
  }

  // A column of the summaries, of the first-layer table and the weight it counts.
  ghost predicate SameColumn(p: Property, col: FirstRow -> u32, w: Packet -> nat) {
    || (p == Packets && col == PacketsOf && w == One) || (p == TotLen && col == LenOf && w == Bytes)
    || (p == TotTcp && col == TcpOf && w == Tcp) || (p == TotSyn && col == SynOf && w == Syn)
  }

  lemma {:induction false} SummaryColumn(ps: seq<Packet>, stamp: u64, p: Property,
                                         col: FirstRow -> u32, w: Packet -> nat)
    requires ps != [] && SameColumn(p, col, w)
    ensures Get(Summary(Table(ps), stamp).m, p) == Sum32(Table(ps), col)
    ensures Sum32(Table(ps), col) == Wrap(SumFrom(ps, Admitted(ps), w))
  {
    SummaryField(Table(ps), stamp, p, col, w);
    FieldSum(ps, p, col, w);
  }

  lemma {:induction false} SummaryField(table: seq<FirstRow>, stamp: u64, p: Property,
                                        col: FirstRow -> u32, w: Packet -> nat)
    requires 1 <= |table| <= FIRST_LAYER_TABLE_LENGTH && SameColumn(p, col, w)
    ensures Get(Summary(table, stamp).m, p) == Sum32(table, col)
  {
  }

  lemma {:induction false} FieldSum(ps: seq<Packet>, p: Property, col: FirstRow -> u32, w: Packet -> nat)
    requires SameColumn(p, col, w)
    ensures Sum32(Table(ps), col) == Wrap(SumFrom(ps, Admitted(ps), w))
  {
    TableSums(ps);
  }

  // What the admitted packets of a period add up to fits 32 bits.
  ghost predicate Fits(ps: seq<Packet>, w: Packet -> nat) {
    SumFrom(ps, Admitted(ps), w) < U32
  }

  lemma {:induction false} SumWider(ps: seq<Packet>, a: set<u32>, b: set<u32>, w: Packet -> nat)
    requires a <= b
    ensures SumFrom(ps, a, w) <= SumFrom(ps, b, w)
  {
    if ps != [] {
      SumWider(ps[..|ps| - 1], a, b, w);
    }
  }

  // Without wrap-around a column's sum is exact.
  lemma {:induction false} ColumnExact(ps: seq<Packet>, n: nat, col: FirstRow -> u32, w: Packet -> nat)
    requires n <= |Table(ps)| <= |Sources(ps)| && Distinct(Sources(ps))
    requires forall k | 0 <= k < |Table(ps)| :: col(Table(ps)[k]) == SumFrom(ps, {Sources(ps)[k]}, w)
    ensures SumExact(Table(ps)[..n], col) == SumFrom(ps, SetOf(Sources(ps)[..n]), w)
    decreases n
  {
    var table, sources := Table(ps), Sources(ps);
    if n == 0 {
      assert SetOf(sources[..0]) == {};
      SumNobody(ps, w);
    } else {
      ColumnExact(ps, n - 1, col, w);
      assert table[..n][..n - 1] == table[..n - 1];
      var a, s := SetOf(sources[..n - 1]), sources[n - 1];
      SetOfPrefix(sources, n);
      SumOneMore(ps, a, s, w);
    }
  }

  // If the sum fits, no row of the table has wrapped.
  lemma {:induction false} RowExact(ps: seq<Packet>, k: nat, p: Property, col: FirstRow -> u32, w: Packet -> nat)
    requires SameColumn(p, col, w) && Fits(ps, w) && k < |Table(ps)| <= |Sources(ps)|
    ensures col(Table(ps)[k]) == SumFrom(ps, {Sources(ps)[k]}, w)
  {
    TableIsMapFold(ps);
    var s := Sources(ps)[k];
    assert First64(Sources(ps))[k] == s;
    SumWider(ps, {s}, Admitted(ps), w);
    WrapFits(SumFrom(ps, {s}, w));
  }

  lemma {:induction false} ExactSum(ps: seq<Packet>, p: Property, col: FirstRow -> u32, w: Packet -> nat)
    requires SameColumn(p, col, w) && Fits(ps, w)
    ensures SumExact(Table(ps), col) == SumFrom(ps, Admitted(ps), w)
  {
    TableIsMapFold(ps);
    var n := |Table(ps)|;
    assert Table(ps)[..n] == Table(ps) && Sources(ps)[..n] == First64(Sources(ps));
    forall k | 0 <= k < |Table(ps)| ensures col(Table(ps)[k]) == SumFrom(ps, {Sources(ps)[k]}, w) {
      RowExact(ps, k, p, col, w);
    }
    ColumnExact(ps, n, col, w);
  }

  lemma QuotientBounds(x: u32, n: nat)
    requires n >= 1
    ensures Quotient(x, n) * n <= x < (Quotient(x, n) + 1) * n
  {
  }

  // avg <= max <= total <= unique * max, and the average is the rounded-down quotient.
  predicate Consistent(avg: u32, max: u32, total: u32, unique: u32) {
    avg <= max <= total <= unique * max && avg * unique <= total < (avg + 1) * unique
  }

  lemma {:induction false} ColumnConsistent(table: seq<FirstRow>, col: FirstRow -> u32)
    requires 1 <= |table| <= FIRST_LAYER_TABLE_LENGTH && SumExact(table, col) < U32
    ensures Consistent(Quotient(Sum32(table, col), |table|), Max32(table, col), Sum32(table, col), |table|)
  {
    Sum32Wraps(table, col);
    WrapFits(SumExact(table, col));
    MaxBounds(table, col);
    AverageBelowMax(Sum32(table, col), |table|, Max32(table, col));
  }

  lemma AverageBelowMax(total: u32, n: nat, max: u32)
    requires n >= 1 && total <= n * max
    ensures Quotient(total, n) <= max && Quotient(total, n) * n <= total < (Quotient(total, n) + 1) * n
  {
    QuotientBounds(total, n);
    DivMonotone(total, n * max, n);
    DivUnique(n * max, n, max, 0);
  }

  // Unless the bytes (or the packets) of a period overflow 32 bits its summary is consistent.
  lemma {:induction false} SummaryBounds(ps: seq<Packet>, stamp: u64)
    requires ps != []
    ensures var m := Summary(Table(ps), stamp).m;
            && 1 <= m.unique <= 64
            && (Fits(ps, One) ==> Consistent(m.avgPackets, m.maxPackets, m.packets, m.unique))
            && (Fits(ps, Bytes) ==> Consistent(m.avgLen, m.maxLen, m.totLen, m.unique))
  {
    if Fits(ps, One) {
      ExactSum(ps, Packets, PacketsOf, One);
      ColumnConsistent(Table(ps), PacketsOf);
    }
    if Fits(ps, Bytes) {
      ExactSum(ps, TotLen, LenOf, Bytes);
      ColumnConsistent(Table(ps), LenOf);
    }
  }

  // Unless the packets of a period overflow 32 bits; the bytes may.
  lemma {:induction false} SummaryOrder(ps: seq<Packet>, stamp: u64)
    requires ps != [] && Fits(ps, One) && forall p | p in ps :: FromHook(p)
    ensures var m := Summary(Table(ps), stamp).m;
            m.totSyn <= m.totTcp <= m.packets <= |ps| && m.totLen <= 0xFFFF * m.packets
  {
    var a := Admitted(ps);
    SumBounds(ps, a);
    TableSums(ps);
    WrapFits(SumFrom(ps, a, One));
    WrapBelow(SumFrom(ps, a, Bytes));
    WrapFits(SumFrom(ps, a, Tcp));
    WrapFits(SumFrom(ps, a, Syn));
  }

  // So many packets of 65535 bytes still fit 32 bits.
  const SAFE_PACKETS: int := 65537

  lemma {:induction false} FewPacketsFit(ps: seq<Packet>)
    requires |ps| <= SAFE_PACKETS && forall p | p in ps :: FromHook(p)
    ensures Fits(ps, One) && Fits(ps, Bytes) && Fits(ps, Tcp) && Fits(ps, Syn)
  {
    SumBounds(ps, Admitted(ps));
  }

  // The bound on the packets is sharp: one packet more, all of 65535 bytes from one source,
  // and the sum of the lengths wraps.
  lemma {:induction false} SafePacketsIsSharp(ps: seq<Packet>, p: Packet)
    requires |ps| == SAFE_PACKETS + 1 && p.len == 0xFFFF && forall k | 0 <= k < |ps| :: ps[k] == p
    ensures Summary(Table(ps), 0).m.totLen < SumFrom(ps, Admitted(ps), Bytes)
  {
    SourcesDistinct(ps);
    SingleSource(ps, p.saddr);
    AllAdmitted(ps, Bytes);
    SameBytes(ps, p);
    SummaryCounts(ps, 0);
  }

  lemma {:induction false} SingleSource(ps: seq<Packet>, s: u32)
    requires forall k | 0 <= k < |ps| :: ps[k].saddr == s
    ensures Sources(ps) == if ps == [] then [] else [s]
  {
    if ps != [] {
      SingleSource(ps[..|ps| - 1], s);
    }
  }

  lemma {:induction false} SameBytes(ps: seq<Packet>, p: Packet)
    requires forall k | 0 <= k < |ps| :: ps[k] == p
    ensures SumAll(ps, Bytes) == |ps| * p.len
  {
    if ps != [] {
      SameBytes(ps[..|ps| - 1], p);
      assert |ps| * p.len == (|ps| - 1) * p.len + p.len;
    }
  }

  // ---- All periods of a trace ----

  ghost function AdmittedTotal(periods: seq<Period>, w: Packet -> nat): nat {
    if periods == [] then 0
    else
      var ps := periods[|periods| - 1].packets;
      AdmittedTotal(periods[..|periods| - 1], w) + SumFrom(ps, Admitted(ps), w)
  }

  lemma {:induction false} JudgedField(before: seq<SecondRow>, last: Period, p: Property)
    requires last.packets != []
    ensures Col(p)(Judged(before, last)) == Get(Summary(Table(last.packets), last.stamp).m, p)
  {
  }

  // One more row: its column value is added, whatever the detector says about it.
  lemma {:induction false} HistoryStep(periods: seq<Period>, last: Period, p: Property)
    requires NonEmpty(periods) && last.packets != []
    ensures SumExact(History(periods + [last]), Col(p))
            == SumExact(History(periods), Col(p)) + Get(Summary(Table(last.packets), last.stamp).m, p)
  {
    var before := History(periods);
    HistorySnoc(periods, last);
    JudgedField(before, last, p);
    SumSnoc(before, Judged(before, last), Col(p));
  }

  lemma {:induction false} HistoryColumn(periods: seq<Period>, p: Property, col: FirstRow -> u32, w: Packet -> nat)
    requires NonEmpty(periods) && SameColumn(p, col, w)
    ensures Congruent(SumExact(History(periods), Col(p)), AdmittedTotal(periods, w))
  {
    CongruentMeans(0, 0);
    if periods != [] {
      var init, last := periods[..|periods| - 1], periods[|periods| - 1];
      assert periods == init + [last];
      HistoryColumn(init, p, col, w);
      HistoryStep(init, last, p);
      var row := Summary(Table(last.packets), last.stamp);
      SummaryColumn(last.packets, last.stamp, p, col, w);
      CongruentWrap(SumFrom(last.packets, Admitted(last.packets), w));
      CongruentAdd(SumExact(History(init), Col(p)), AdmittedTotal(init, w),
                   Get(row.m, p), SumFrom(last.packets, Admitted(last.packets), w),
                   SumExact(History(periods), Col(p)), AdmittedTotal(periods, w));
    }
  }

  // The packets of a trace.
  ghost function PacketsIn(calls: seq<Call>): seq<Packet> {
    if calls == [] then [] else PacketsIn(calls[..|calls| - 1]) + [calls[|calls| - 1].p]
  }

  ghost function Flatten(periods: seq<Period>): seq<Packet> {
    if periods == [] then [] else Flatten(periods[..|periods| - 1]) + periods[|periods| - 1].packets
  }

  // Cutting a trace into periods loses and duplicates nothing.
  lemma {:induction false} CutKeepsPackets(calls: seq<Call>)
    ensures Flatten(CutOf(calls).closed) + CutOf(calls).open == PacketsIn(calls)
  {
    if calls != [] {
      var before, c := calls[..|calls| - 1], calls[|calls| - 1];
      CutKeepsPackets(before);
      var s, s' := CutOf(before), CutOf(calls);
      if s'.closed != s.closed {
        assert s'.closed[..|s.closed|] == s.closed;
      }
    }
  }

  lemma {:induction false} LiveColumn(ps: seq<Packet>, p: Property, col: FirstRow -> u32, w: Packet -> nat)
    requires SameColumn(p, col, w)
    ensures Congruent(Sum32(Table(ps), col), SumFrom(ps, Admitted(ps), w))
  {
    TableSums(ps);
    CongruentWrap(SumFrom(ps, Admitted(ps), w));
  }

  // A column of all rows ever written plus the live table.
  ghost function Counted(calls: seq<Call>, p: Property, col: FirstRow -> u32): nat {
    CutNonEmpty(calls);
    SumExact(History(CutOf(calls).closed), Col(p)) + Sum32(RunCalls(calls).live, col)
  }

  // The same from the packets that were admitted.
  ghost function AdmittedIn(calls: seq<Call>, w: Packet -> nat): nat {
    AdmittedTotal(CutOf(calls).closed, w) + SumFrom(CutOf(calls).open, Admitted(CutOf(calls).open), w)
  }

  // Conservation, always: in each of the four columns (packets, bytes, TCP, SYN) the rows
  // ever written plus the live table count the admitted packets, modulo 2^32.
  lemma {:induction false} Conserved(calls: seq<Call>, p: Property, col: FirstRow -> u32, w: Packet -> nat)
    requires SameColumn(p, col, w)
    ensures Congruent(Counted(calls, p, col), AdmittedIn(calls, w))
  {
    WindowIsHistory(calls);
    var s, live := CutOf(calls), RunCalls(calls).live;
    HistoryColumn(s.closed, p, col, w);
    LiveColumn(s.open, p, col, w);
    CongruentAdd(SumExact(History(s.closed), Col(p)), AdmittedTotal(s.closed, w),
                 Sum32(live, col), SumFrom(s.open, Admitted(s.open), w),
                 Counted(calls, p, col), AdmittedIn(calls, w));
  }

  ghost predicate AllFit(periods: seq<Period>, w: Packet -> nat) {
    forall k | 0 <= k < |periods| :: Fits(periods[k].packets, w)
  }

  lemma {:induction false} AllFitSnoc(init: seq<Period>, last: Period, w: Packet -> nat)
    ensures AllFit(init + [last], w) <==> AllFit(init, w) && Fits(last.packets, w)
  {
    var periods := init + [last];
    assert forall k | 0 <= k < |init| :: periods[k] == init[k];
    assert periods[|init|] == last;
  }

  // A summary can only lose, and loses exactly when the sum does not fit.
  lemma {:induction false} SummaryLoses(ps: seq<Packet>, stamp: u64, p: Property,
                                        col: FirstRow -> u32, w: Packet -> nat)
    requires ps != [] && SameColumn(p, col, w)
    ensures Get(Summary(Table(ps), stamp).m, p) <= SumFrom(ps, Admitted(ps), w)
    ensures Get(Summary(Table(ps), stamp).m, p) == SumFrom(ps, Admitted(ps), w) <==> Fits(ps, w)
  {
    SummaryColumn(ps, stamp, p, col, w);
    WrapBelow(SumFrom(ps, Admitted(ps), w));
  }

  lemma {:induction false} HistoryLoses(periods: seq<Period>, p: Property, col: FirstRow -> u32, w: Packet -> nat)
    requires NonEmpty(periods) && SameColumn(p, col, w)
    ensures SumExact(History(periods), Col(p)) <= AdmittedTotal(periods, w)
    ensures SumExact(History(periods), Col(p)) == AdmittedTotal(periods, w) <==> AllFit(periods, w)
  {
    if periods != [] {
      var init, last := periods[..|periods| - 1], periods[|periods| - 1];
      assert periods == init + [last];
      HistoryLoses(init, p, col, w);
      HistoryStep(init, last, p);
      AllFitSnoc(init, last, w);
      SummaryLoses(last.packets, last.stamp, p, col, w);
    }
  }

  // The counts are exact if and only if in no period the admitted packets add up to 2^32 or more.
  lemma {:induction false} ConservedIff(calls: seq<Call>, p: Property, col: FirstRow -> u32, w: Packet -> nat)
    requires SameColumn(p, col, w)
    ensures Counted(calls, p, col) <= AdmittedIn(calls, w)
    ensures Counted(calls, p, col) == AdmittedIn(calls, w)
            <==> AllFit(CutOf(calls).closed, w) && Fits(CutOf(calls).open, w)
  {
    WindowIsHistory(calls);
    var s := CutOf(calls);
    HistoryLoses(s.closed, p, col, w);
    TableSums(s.open);
    WrapBelow(SumFrom(s.open, Admitted(s.open), w));
  }

  lemma {:induction false} SumAllAppend(a: seq<Packet>, b: seq<Packet>, w: Packet -> nat)
    ensures SumAll(a + b, w) == SumAll(a, w) + SumAll(b, w)
  {
    if b == [] {
      assert a + b == a;
    } else {
      assert (a + b)[..|a + b| - 1] == a + b[..|b| - 1];
      SumAllAppend(a, b[..|b| - 1], w);
    }
  }

  ghost predicate FewSources(periods: seq<Period>) {
    forall k | 0 <= k < |periods| :: |Sources(periods[k].packets)| <= FIRST_LAYER_TABLE_LENGTH
  }

  lemma {:induction false} FewSourcesTotal(periods: seq<Period>, w: Packet -> nat)
    requires FewSources(periods)
    ensures AdmittedTotal(periods, w) == SumAll(Flatten(periods), w)
  {
    if periods != [] {
      var init, last := periods[..|periods| - 1], periods[|periods| - 1];
      FewSourcesTotal(init, w);
      AllAdmitted(last.packets, w);
      SumAllAppend(Flatten(init), last.packets, w);
    }
  }

  // If no period has more than 64 sources, then they are those of every packet given to
  // add_packet_info if and only if nothing overflows.
  lemma {:induction false} ConservedExactly(calls: seq<Call>, p: Property, col: FirstRow -> u32, w: Packet -> nat)
    requires SameColumn(p, col, w)
    requires FewSources(CutOf(calls).closed) && |Sources(CutOf(calls).open)| <= FIRST_LAYER_TABLE_LENGTH
    ensures Counted(calls, p, col) == SumAll(PacketsIn(calls), w)
            <==> AllFit(CutOf(calls).closed, w) && Fits(CutOf(calls).open, w)
  {
    var s := CutOf(calls);
    ConservedIff(calls, p, col, w);
    FewSourcesTotal(s.closed, w);
    AllAdmitted(s.open, w);
    SumAllAppend(Flatten(s.closed), s.open, w);
    CutKeepsPackets(calls);
  }

  // ---- When every packet is counted ----

  // A source that gets no row leaves a packet out.
  lemma {:induction false} SomeoneLeftOut(ps: seq<Packet>, a: set<u32>, q: Packet)
    requires q in ps && q.saddr !in a
    ensures SumFrom(ps, a, One) < |ps|
  {
    var init, last := ps[..|ps| - 1], ps[|ps| - 1];
    assert ps == init + [last];
    if q in init {
      SomeoneLeftOut(init, a, q);
    } else {
      SumAtMost(init, a);
    }
  }

  lemma {:induction false} SumAtMost(ps: seq<Packet>, a: set<u32>)
    ensures SumFrom(ps, a, One) <= |ps|
  {
    if ps != [] {
      SumAtMost(ps[..|ps| - 1], a);
    }
  }

  lemma {:induction false} SourceSent(ps: seq<Packet>, s: u32) returns (q: Packet)
    requires s in Sources(ps)
    ensures q in ps && q.saddr == s
  {
    var init, last := ps[..|ps| - 1], ps[|ps| - 1];
    if last.saddr == s {
      q := last;
    } else {
      q := SourceSent(init, s);
    }
  }

  // Every packet of a period is admitted if and only if it has at most 64 sources.
  lemma {:induction false} AllAdmittedIff(ps: seq<Packet>)
    ensures SumFrom(ps, Admitted(ps), One) <= |ps|
    ensures SumFrom(ps, Admitted(ps), One) == |ps| <==> |Sources(ps)| <= FIRST_LAYER_TABLE_LENGTH
  {
    SumAtMost(ps, Admitted(ps));
    if |Sources(ps)| <= FIRST_LAYER_TABLE_LENGTH {
      AllAdmitted(ps, One);
      CountAll(ps);
    } else {
      SourcesDistinct(ps);
      var s := Sources(ps)[FIRST_LAYER_TABLE_LENGTH];
      assert s !in Admitted(ps);
      var q := SourceSent(ps, s);
      SomeoneLeftOut(ps, Admitted(ps), q);
    }
  }

  lemma {:induction false} FewSourcesSnoc(init: seq<Period>, last: Period)
    ensures FewSources(init + [last])
            <==> FewSources(init) && |Sources(last.packets)| <= FIRST_LAYER_TABLE_LENGTH
  {
    var periods := init + [last];
    assert forall k | 0 <= k < |init| :: periods[k] == init[k];
    assert periods[|init|] == last;
  }

  lemma {:induction false} AdmittedTotalIff(periods: seq<Period>)
    ensures AdmittedTotal(periods, One) <= |Flatten(periods)|
    ensures AdmittedTotal(periods, One) == |Flatten(periods)| <==> FewSources(periods)
  {
    if periods != [] {
      var init, last := periods[..|periods| - 1], periods[|periods| - 1];
      assert periods == init + [last];
      AdmittedTotalIff(init);
      AllAdmittedIff(last.packets);
      FewSourcesSnoc(init, last);
    }
  }

  lemma {:induction false} PacketsInLength(calls: seq<Call>)
    ensures |PacketsIn(calls)| == |calls|
  {
    if calls != [] {
      PacketsInLength(calls[..|calls| - 1]);
    }
  }

  // A period of no more than 64 sources fits when it has fewer than 2^32 packets.
  ghost predicate Countable(ps: seq<Packet>) {
    |Sources(ps)| <= FIRST_LAYER_TABLE_LENGTH && |ps| < U32
  }

  lemma {:induction false} CountableMeans(ps: seq<Packet>)
    ensures Countable(ps) <==> |Sources(ps)| <= FIRST_LAYER_TABLE_LENGTH && Fits(ps, One)
  {
    AllAdmittedIff(ps);
  }

  // The packet column sums to the number of calls if and only if no period has more than 64
  // sources or 2^32 packets.
  lemma {:induction false} EveryPacketCounted(calls: seq<Call>)
    ensures Counted(calls, Packets, PacketsOf) == |calls|
            <==> Countable(CutOf(calls).open) && forall p | p in CutOf(calls).closed :: Countable(p.packets)
  {
    var s := CutOf(calls);
    ConservedIff(calls, Packets, PacketsOf, One);
    AdmittedTotalIff(s.closed);
    AllAdmittedIff(s.open);
    CutKeepsPackets(calls);
    PacketsInLength(calls);
    CountableMeans(s.open);
    assert (forall p | p in s.closed :: Countable(p.packets)) <==> FewSources(s.closed) && AllFit(s.closed, One) by {
      CountablePeriods(s.closed);
    }
  }

  lemma {:induction false} CountablePeriods(periods: seq<Period>)
    ensures (forall p | p in periods :: Countable(p.packets)) <==> FewSources(periods) && AllFit(periods, One)
  {
    forall k | 0 <= k < |periods|
      ensures Countable(periods[k].packets)
              <==> |Sources(periods[k].packets)| <= FIRST_LAYER_TABLE_LENGTH && Fits(periods[k].packets, One)
    {
      CountableMeans(periods[k].packets);
    }
    if forall p | p in periods :: Countable(p.packets) {
      assert forall k | 0 <= k < |periods| :: periods[k] in periods;
    }
  }
}
