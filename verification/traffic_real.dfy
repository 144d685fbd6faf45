// What wrap-around does to the verdicts on rows that packets can really produce, and a trace
// whose counts leave packets out.
module RealTraffic {
  import opened TrafficTypes
  import opened FirstLayer
  import opened Detector
  import opened Window
  import opened Clock
  import opened Conservation
  import opened Traces

  // ---- Rows of periods that do not overflow ----

  ghost predicate Real(ps: seq<Packet>) {
    ps != [] && forall p | p in ps :: FromHook(p)
  }

  // What holds of the summary of any such period.
  ghost predicate Plausible(m: Metrics) {
    && m.unique <= 64 && m.avgPackets <= m.packets && m.maxPackets <= m.packets
    && m.totTcp <= m.packets && m.totSyn <= m.packets
    && m.avgLen <= m.totLen && m.maxLen <= m.totLen && m.totLen <= 0xFFFF * m.packets
  }

  lemma {:induction false} SummaryPlausible(ps: seq<Packet>, stamp: u64)
    requires Real(ps) && Fits(ps, One) && Fits(ps, Bytes)
    ensures Plausible(Summary(Table(ps), stamp).m)
  {
    SummaryBounds(ps, stamp);
    SummaryOrder(ps, stamp);
  }

  ghost predicate AllPlausible(hist: seq<SecondRow>) {
    forall k | 0 <= k < |hist| :: Plausible(hist[k].m)
  }

  // The rows of a history of such periods are plausible.
  lemma {:induction false} HistoryPlausible(periods: seq<Period>)
    requires NonEmpty(periods)
    requires forall k | 0 <= k < |periods| ::
               Real(periods[k].packets) && Fits(periods[k].packets, One) && Fits(periods[k].packets, Bytes)
    ensures AllPlausible(History(periods))
  {
    forall k | 0 <= k < |periods| ensures Plausible(History(periods)[k].m) {
      RowAt(periods, k);
      SummaryPlausible(periods[k].packets, periods[k].stamp);
    }
  }

  // ---- One column below another ----

  lemma {:induction false} SumBelow(hist: seq<SecondRow>, p: Property, q: Property)
    requires forall k | 0 <= k < |hist| :: Get(hist[k].m, p) <= Get(hist[k].m, q)
    ensures SumExact(hist, Col(p)) <= SumExact(hist, Col(q))
  {
    if hist != [] {
      SumBelow(hist[..|hist| - 1], p, q);
    }
  }

  lemma {:induction false} NoWrapBelow(hist: seq<SecondRow>, p: Property, q: Property)
    requires hist != [] && forall k | 0 <= k < |hist| :: Get(hist[k].m, p) <= Get(hist[k].m, q)
    requires NoWrap(hist, q)
    ensures NoWrap(hist, p)
  {
    SumBelow(hist, p, q);
    DivMonotone(SumExact(hist, Col(p)), SumExact(hist, Col(q)), |hist|);
  }

  lemma {:induction false} UniqueNeverWraps(hist: seq<SecondRow>)
    requires 1 <= |hist| <= MAX_HISTORY && AllPlausible(hist)
    ensures NoWrap(hist, UniqueSaddrs)
  {
    SumUpTo(hist, Col(UniqueSaddrs), 64);
    AverageUpTo(SumExact(hist, Col(UniqueSaddrs)), |hist|, 64);
  }

  // If the packets and the bytes do not wrap, no other field does.
  lemma {:induction false} TwoColumns(hist: seq<SecondRow>, p: Property)
    requires 1 <= |hist| <= MAX_HISTORY && AllPlausible(hist)
    requires NoWrap(hist, Packets) && NoWrap(hist, TotLen)
    ensures NoWrap(hist, p)
  {
    match p
    case Undefined => UndefinedNeverWraps(hist);
    case UniqueSaddrs => UniqueNeverWraps(hist);
    case TotLen =>
    case AvgLen => NoWrapBelow(hist, p, TotLen);
    case MaxLen => NoWrapBelow(hist, p, TotLen);
    case _ => NoWrapBelow(hist, p, Packets);
  }

  // ---- A period that tells the detectors apart ----

  // Packets of one source with the given number of bytes altogether.
  function Chunks(total: nat): (ps: seq<Packet>)
    ensures ps != [] && forall p | p in ps :: p.saddr == 1 && FromHook(p) && !p.tcp && !p.syn
    ensures |ps| <= total / 0xFFFF + 1
    decreases total
  {
    if total <= 0xFFFF then [Packet(1, total, false, false)]
    else Chunks(total - 0xFFFF) + [Packet(1, 0xFFFF, false, false)]
  }

  lemma {:induction false} ChunksBytes(total: nat)
    ensures SumAll(Chunks(total), Bytes) == total
    decreases total
  {
    if total <= 0xFFFF {
      assert Chunks(total)[..0] == [];
    } else {
      ChunksBytes(total - 0xFFFF);
      assert Chunks(total)[..|Chunks(total)| - 1] == Chunks(total - 0xFFFF);
    }
  }

  lemma {:induction false} NoFlags(ps: seq<Packet>)
    requires forall p | p in ps :: !p.tcp && !p.syn
    ensures SumAll(ps, Tcp) == 0 && SumAll(ps, Syn) == 0
  {
    if ps != [] {
      NoFlags(ps[..|ps| - 1]);
    }
  }

  // The summary of plain packets from one source.
  lemma {:induction false} OneSource(ps: seq<Packet>, s: u32)
    requires ps != [] && |ps| < U32 && SumAll(ps, Bytes) < U32
    requires forall p | p in ps :: p.saddr == s && !p.tcp && !p.syn
    ensures var n, b := |ps|, SumAll(ps, Bytes); Summary(Table(ps), 0).m == Metrics(1, n, b, n, n, b, b, 0, 0)
  {
    SingleSource(ps, s);
    TableIsMapFold(ps);
    SumEverybody(ps, {s}, One);
    SumEverybody(ps, {s}, Bytes);
    SumEverybody(ps, {s}, Tcp);
    SumEverybody(ps, {s}, Syn);
    CountAll(ps);
    NoFlags(ps);
    WrapFits(|ps|);
    WrapFits(SumAll(ps, Bytes));
    assert Table(ps) == [FirstRow(s, |ps|, SumAll(ps, Bytes), 0, 0)];
    OneRow(Table(ps)[0], 0);
  }

  lemma {:induction false} NoBytes(ps: seq<Packet>)
    requires forall p | p in ps :: p.len == 0
    ensures SumAll(ps, Bytes) == 0
  {
    if ps != [] {
      NoBytes(ps[..|ps| - 1]);
    }
  }

  lemma {:induction false} FirstIs(hist: seq<SecondRow>, m: Metrics, p: Property)
    requires p == Packets || p == TotLen
    requires Over32(hist, m, p) && !OverExact(hist, m, p) && |hist| <= MAX_HISTORY
    requires !Over32(hist, m, UniqueSaddrs) && (p == TotLen ==> !Over32(hist, m, Packets))
    ensures Verdict(hist, m) == p && Verdict(hist, m) != VerdictExact(hist, m)
  {
    FirstMeaning(q => Over32(hist, m, q), p);
    SameVerdictIff(hist, m);
  }

  // One packet more than the lowered limit, all empty, from one source.
  lemma {:induction false} PacketsTell(hist: seq<SecondRow>) returns (ps: seq<Packet>)
    requires 1 <= |hist| <= MAX_HISTORY && !NoWrap(hist, Packets)
    ensures Real(ps) && var m := Summary(Table(ps), 0).m; Verdict(hist, m) != VerdictExact(hist, m)
  {
    var limit := Limit32(Avg32(hist, Packets), Packets);
    LimitRoom(Avg32(hist, Packets), Packets);
    ps := Copies(Packet(1, 0, false, false), limit + 1);
    NoBytes(ps);
    OneSource(ps, 1);
    PacketsOnly(hist, Summary(Table(ps), 0).m);
  }

  lemma {:induction false} PacketsOnly(hist: seq<SecondRow>, m: Metrics)
    requires 1 <= |hist| <= MAX_HISTORY && !NoWrap(hist, Packets)
    requires m.unique == 1 && m.packets == Limit32(Avg32(hist, Packets), Packets) + 1
    ensures Verdict(hist, m) != VerdictExact(hist, m)
  {
    LimitWraps(hist, Packets);
    LimitLeast(Avg32(hist, UniqueSaddrs));
    FirstIs(hist, m, Packets);
  }

  // Enough packets come with so many bytes to keep the limit on the packets out of the way.
  lemma {:induction false} BytesNeedPackets(hist: seq<SecondRow>)
    requires 1 <= |hist| <= MAX_HISTORY && AllPlausible(hist)
    ensures AvgExact(hist, TotLen) < 0xFFFF * (AvgExact(hist, Packets) + 1)
  {
    var h := |hist|;
    var bytes, packets := SumExact(hist, Col(TotLen)), SumExact(hist, Col(Packets));
    BytesPerPacket(hist);
    AverageRatio(bytes, packets, h);
  }

  lemma AverageRatio(bytes: nat, packets: nat, h: nat)
    requires h >= 1 && bytes <= 0xFFFF * packets
    ensures bytes / h < 0xFFFF * (packets / h + 1)
  {
    var a, b := packets / h, bytes / h;
    assert packets < h * (a + 1) && h * b <= bytes;
    assert h * (0xFFFF * (a + 1)) == 0xFFFF * (h * (a + 1));
    MulLess(h, b, 0xFFFF * (a + 1));
  }

  lemma MulLess(h: nat, a: int, b: int)
    requires h * a < h * b
    ensures a < b
  {
    if b <= a {
      MulOrder(h, b, a);
      assert false;
    }
  }

  lemma {:induction false} BytesPerPacket(hist: seq<SecondRow>)
    requires AllPlausible(hist)
    ensures SumExact(hist, Col(TotLen)) <= 0xFFFF * SumExact(hist, Col(Packets))
  {
    if hist != [] {
      BytesPerPacket(hist[..|hist| - 1]);
      assert Plausible(hist[|hist| - 1].m);
    }
  }

  // A row whose bytes are just over the lowered limit and whose packets are few.
  lemma {:induction false} BytesOnly(hist: seq<SecondRow>, m: Metrics, n: u32)
    requires 1 <= |hist| <= MAX_HISTORY && !NoWrap(hist, TotLen)
    requires m.unique == 1 && m.packets == n <= Limit32(Avg32(hist, Packets), Packets)
    requires m.totLen == Limit32(Avg32(hist, TotLen), TotLen) + 1
    ensures Verdict(hist, m) != VerdictExact(hist, m)
  {
    LimitWraps(hist, TotLen);
    LimitLeast(Avg32(hist, UniqueSaddrs));
    FirstIs(hist, m, TotLen);
  }

  lemma LimitLeast(avg: u32)
    ensures 1 <= Limit32(avg, UniqueSaddrs)
  {
    WrapFits(Wrap(avg * (100 + EPS_PERCENT)) / 100 + Get(INITIAL, UniqueSaddrs));
  }

  // The fewest packets that carry so many bytes stay below the limit on the packets.
  lemma {:induction false} LimitsLeaveRoom(hist: seq<SecondRow>, n: nat)
    requires 1 <= |hist| <= MAX_HISTORY && AllPlausible(hist) && NoWrap(hist, Packets) && !NoWrap(hist, TotLen)
    requires n <= (Limit32(Avg32(hist, TotLen), TotLen) + 1) / 0xFFFF + 1
    ensures n <= Limit32(Avg32(hist, Packets), Packets)
  {
    LimitWraps(hist, TotLen);
    LimitWraps(hist, Packets);
    BytesNeedPackets(hist);
    FewEnough(AvgExact(hist, TotLen), AvgExact(hist, Packets), Limit32(Avg32(hist, TotLen), TotLen) + 1, n);
  }

  // One byte more than the lowered limit, in as few packets as possible, from one source.
  lemma {:induction false} BytesTell(hist: seq<SecondRow>) returns (ps: seq<Packet>)
    requires 1 <= |hist| <= MAX_HISTORY && AllPlausible(hist) && NoWrap(hist, Packets) && !NoWrap(hist, TotLen)
    ensures Real(ps) && var m := Summary(Table(ps), 0).m; Verdict(hist, m) != VerdictExact(hist, m)
  {
    var total := Limit32(Avg32(hist, TotLen), TotLen) + 1;
    LimitRoom(Avg32(hist, TotLen), TotLen);
    ps := Chunks(total);
    ChunksBytes(total);
    OneSource(ps, 1);
    LimitsLeaveRoom(hist, |ps|);
    BytesOnly(hist, Summary(Table(ps), 0).m, |ps|);
  }

  lemma FewEnough(bytes: nat, packets: nat, total: nat, n: nat)
    requires bytes < 0xFFFF * (packets + 1) && total <= bytes * 130 / 100 + 1000000 && n <= total / 0xFFFF + 1
    ensures n <= packets * 130 / 100 + 100
  {
    assert total * 100 <= 130 * 0xFFFF * (packets + 1) + 100000000;
    assert 0xFFFF * (n - 1) <= total;
  }

  // After rows of periods that did not overflow, the two detectors agree on every period of
  // packets the hook can pass on exactly when nothing wraps.
  lemma {:induction false} RealVerdictsIff(hist: seq<SecondRow>)
    requires 1 <= |hist| <= MAX_HISTORY && AllPlausible(hist)
    ensures (forall ps | Real(ps) ::
               Verdict(hist, Summary(Table(ps), 0).m) == VerdictExact(hist, Summary(Table(ps), 0).m))
            <==> forall p :: NoWrap(hist, p)
  {
    if forall p :: NoWrap(hist, p) {
      forall ps | Real(ps)
        ensures Verdict(hist, Summary(Table(ps), 0).m) == VerdictExact(hist, Summary(Table(ps), 0).m)
      {
        SameVerdict(hist, Summary(Table(ps), 0).m);
      }
    } else if !NoWrap(hist, Packets) {
      var ps := PacketsTell(hist);
    } else if !NoWrap(hist, TotLen) {
      var ps := BytesTell(hist);
    } else {
      var p :| !NoWrap(hist, p);
      TwoColumns(hist, p);
    }
  }

  // ---- A trace with packets that are not counted ----

  function Crowd(n: nat): (ps: seq<Packet>)
    requires n < U32
    ensures |ps| == n && forall k | 0 <= k < n :: ps[k] == Packet(k, 20, false, false)
  {
    seq(n, k requires 0 <= k < n => Packet(k, 20, false, false))
  }

  lemma {:induction false} CrowdSources(n: nat)
    requires n < U32
    ensures |Sources(Crowd(n))| == n && forall k | 0 <= k < n :: Sources(Crowd(n))[k] == k
    decreases n
  {
    if n > 0 {
      CrowdSources(n - 1);
      assert Crowd(n)[..n - 1] == Crowd(n - 1);
    }
  }

  // A period of 65 packets from as many sources: one packet is in no row.
  lemma LostPacket() returns (calls: seq<Call>)
    ensures Clocked(calls) && AllFromHook(calls)
    ensures Counted(calls, Packets, PacketsOf) < |calls|
  {
    var pss := [Crowd(65)];
    calls := Realised(pss, LARGE);
    CrowdSources(65);
    assert PeriodsOf(pss)[0] in CutOf(calls).closed && !Countable(PeriodsOf(pss)[0].packets);
    EveryPacketCounted(calls);
    AtMostCalls(calls);
  }

  lemma {:induction false} AtMostCalls(calls: seq<Call>)
    ensures Counted(calls, Packets, PacketsOf) <= |calls|
  {
    var s := CutOf(calls);
    ConservedIff(calls, Packets, PacketsOf, One);
    AdmittedTotalIff(s.closed);
    AllAdmittedIff(s.open);
    CutKeepsPackets(calls);
    PacketsInLength(calls);
  }
}
