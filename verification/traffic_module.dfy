// The kernel module's state and operations, updating its tables in place.
module TrafficModule {
  import opened Wrappers
  import opened TrafficTypes
  import opened FirstLayer
  import opened Detector
  import opened Window
  import opened Clock
  import opened Cursor

  // The test of one field against the limit from its average.
  ghost predicate OverAverage(avg: Metrics, last: Metrics, p: Property) {
    Get(last, p) > Limit32(Get(avg, p), p)
  }

  // The chain of comparisons of the last row with the limits.
  method FirstOverLimit(avg: Metrics, last: Metrics) returns (p: Property)
    ensures p == FirstFrom(q => OverAverage(avg, last, q), 1)
  {
    TestsInOrder(q => OverAverage(avg, last, q));
    var limit: u64;

    limit := Limit32(avg.unique, UniqueSaddrs);
    if last.unique > limit { return UniqueSaddrs; }

    limit := Limit32(avg.packets, Packets);
    if last.packets > limit { return Packets; }

    limit := Limit32(avg.totLen, TotLen);
    if last.totLen > limit { return TotLen; }

    limit := Limit32(avg.avgPackets, AvgPackets);
    if last.avgPackets > limit { return AvgPackets; }

    limit := Limit32(avg.maxPackets, MaxPackets);
    if last.maxPackets > limit { return MaxPackets; }

    limit := Limit32(avg.avgLen, AvgLen);
    if last.avgLen > limit { return AvgLen; }

    limit := Limit32(avg.maxLen, MaxLen);
    if last.maxLen > limit { return MaxLen; }

    limit := Limit32(avg.totTcp, TotTcp);
    if last.totTcp > limit { return TotTcp; }

    limit := Limit32(avg.totSyn, TotSyn);
    if last.totSyn > limit { return TotSyn; }

    return Undefined;
  }

  lemma {:induction false} AverageVerdict(avg: Metrics, last: Metrics, hist: seq<SecondRow>)
    requires hist != [] && forall q :: Get(avg, q) == Avg32(hist, q)
    ensures FirstFrom(q => OverAverage(avg, last, q), 1) == Verdict(hist, last)
  {
    forall q ensures OverAverage(avg, last, q) == Over32(hist, last, q) {
      assert Get(avg, q) == Avg32(hist, q);
    }
    FirstFromSame(q => OverAverage(avg, last, q), q => Over32(hist, last, q), 1);
  }

  function AddMetrics(a: Metrics, b: Metrics): (r: Metrics)
    ensures forall p :: Get(r, p) == Wrap(Get(a, p) + Get(b, p))
  {
    Metrics(Wrap(a.unique + b.unique), Wrap(a.packets + b.packets), Wrap(a.totLen + b.totLen),
            Wrap(a.avgPackets + b.avgPackets), Wrap(a.maxPackets + b.maxPackets),
            Wrap(a.avgLen + b.avgLen), Wrap(a.maxLen + b.maxLen),
            Wrap(a.totTcp + b.totTcp), Wrap(a.totSyn + b.totSyn))
  }

  function DivMetrics(a: Metrics, n: nat): (r: Metrics)
    requires n >= 1
    ensures forall p :: Get(r, p) == Quotient(Get(a, p), n)
  {
    Metrics(Quotient(a.unique, n), Quotient(a.packets, n), Quotient(a.totLen, n),
            Quotient(a.avgPackets, n), Quotient(a.maxPackets, n), Quotient(a.avgLen, n),
            Quotient(a.maxLen, n), Quotient(a.totTcp, n), Quotient(a.totSyn, n))
  }

  // The three ways a call can start, and what they leave.
  lemma RollCases(m: Monitor, c: Call)
    requires Ok(m)
    ensures !PeriodOver(m.fromTime, c) ==> Roll(m, c) == m
    ensures PeriodOver(m.fromTime, c) && m.fromTime == 0 ==> Roll(m, c) == m.(fromTime := c.t3)
    ensures PeriodOver(m.fromTime, c) && m.fromTime != 0 ==> Roll(m, c) == Dump(m, c.t2).(fromTime := c.t3)
    ensures |Roll(m, c).window| >= |m.window|
  {
  }

  lemma RolledOver(m: Monitor, c: Call, dumped: Monitor, after: Monitor)
    requires Ok(m) && PeriodOver(m.fromTime, c) && dumped == if m.fromTime == 0 then m else Dump(m, c.t2)
    requires after == Monitor(c.t3, dumped.live, dumped.window)
    ensures after == Roll(m, c)
  {
  }

  // Where a linear search that has passed i rows stops.
  lemma {:induction false} FoundAt(table: seq<FirstRow>, saddr: u32, i: nat)
    requires i <= |table| && forall k | 0 <= k < i :: table[k].saddr != saddr
    requires i < |table| ==> table[i].saddr == saddr
    ensures Find(table, saddr) == i
  {
    var f := Find(table, saddr);
  }

  lemma {:induction false} SliceSnoc(rows: seq<SecondRow>, start: nat, k: nat)
    requires start <= k < |rows|
    ensures rows[start..k] + [rows[k]] == rows[start..k + 1] && rows[start..|rows|] == rows[start..]
  {
  }

  const ZERO := Metrics(0, 0, 0, 0, 0, 0, 0, 0, 0)

  class CoreModule {
    const first: array<FirstRow>
    const second: array<SecondRow>
    var firstNext: nat
    var secondNext: nat
    var readIndex: nat
    var fromTime: u64

    // All calls of add_packet_info so far.
    ghost var calls: seq<Call>

    ghost predicate Shape()
      reads this
    {
      && first.Length == FIRST_LAYER_TABLE_LENGTH && second.Length == SECOND_LAYER_TABLE_LENGTH
      && firstNext <= FIRST_LAYER_TABLE_LENGTH && secondNext <= SECOND_LAYER_TABLE_LENGTH
    }

    ghost function Live(): seq<FirstRow>
      requires Shape()
      reads this, first
    {
      first[..firstNext]
    }

    ghost function Rows(): seq<SecondRow>
      requires Shape()
      reads this, second
    {
      second[..secondNext]
    }

    ghost function Abs(): Monitor
      requires Shape()
      reads this, first, second
    {
      Monitor(fromTime, Live(), Rows())
    }

    ghost predicate Valid()
      reads this, first, second
    {
      Shape() && readIndex <= secondNext && Abs() == RunCalls(calls)
    }

    constructor ()
      ensures Valid() && calls == [] && readIndex == 0
      ensures fresh(first) && fresh(second)
    {
      first := new FirstRow[64](_ => FirstRow(0, 0, 0, 0, 0));
      second := new SecondRow[512](_ => SecondRow(0, Metrics(0, 0, 0, 0, 0, 0, 0, 0, 0), 0, Undefined, NoKind));
      firstNext, secondNext, readIndex, fromTime := 0, 0, 0, 0;
      calls := [];
    }

    // The averages of rows 0..n, as inspect_last accumulates them.
    method Averages(n: nat) returns (avg: Metrics)
      requires Shape() && 1 <= n <= secondNext
      ensures forall p :: Get(avg, p) == Avg32(second[..n], p)
    {
      avg := ZERO;
      for i := 0 to n
        invariant forall p :: Get(avg, p) == Sum32(second[..i], Col(p))
      {
        assert second[..i + 1][..i] == second[..i];
        avg := AddMetrics(avg, second[i].m);
      }
      avg := DivMetrics(avg, n);
    }

    // The property over its limit in row n, judged against the rows before it.
    method Judge(n: nat) returns (p: Property)
      requires Shape() && 1 <= n < secondNext
      ensures p == Verdict(second[..n], second[n].m)
    {
      var avg := Averages(n);
      p := FirstOverLimit(avg, second[n].m);
      AverageVerdict(avg, second[n].m, second[..n]);
    }

    method InspectLast()
      requires Shape()
      modifies second
      ensures secondNext < 2 ==> Rows() == old(Rows())
      ensures secondNext >= 2 ==>
                var n := secondNext - 1;
                Rows() == old(Rows()[..n]) + [Inspect(old(Rows()[..n]), old(Rows()[n]))]
    {
      if secondNext < 2 {
        return;
      }
      var n := secondNext - 1;
      ghost var rows := Rows();
      assert rows[..n] == second[..n] && rows == rows[..n] + [rows[n]];
      var p := Judge(n);
      if p != Undefined {
        second[n] := second[n].(crit := 1, property := p, kind := Increase);
      }
      assert second[n] == Inspect(rows[..n], rows[n]);
      assert Rows()[..n] == rows[..n];
    }

    // Makes room when the window is full.
    method DropFirstRow()
      requires Shape()
      modifies this`secondNext, second
      ensures Shape()
      ensures second[..secondNext] == DropOldest(old(Rows())) && secondNext < SECOND_LAYER_TABLE_LENGTH
      ensures secondNext == |DropOldest(old(Rows()))|
    {
      if secondNext >= SECOND_LAYER_TABLE_LENGTH {
        for i := 0 to SECOND_LAYER_TABLE_LENGTH - 1
          invariant secondNext == old(secondNext)
          invariant forall k | 0 <= k < i :: second[k] == old(second[k + 1])
          invariant forall k | i <= k < second.Length :: second[k] == old(second[k])
        {
          second[i] := second[i + 1];
        }
        secondNext := secondNext - 1;
      }
    }

    // The totals and maxima over the first-layer table.
    method SumTable() returns (packets: u32, len: u32, maxPackets: u32, maxLen: u32, tcp: u32, syn: u32)
      requires Shape()
      ensures packets == Sum32(Live(), PacketsOf) && len == Sum32(Live(), LenOf)
      ensures maxPackets == Max32(Live(), PacketsOf) && maxLen == Max32(Live(), LenOf)
      ensures tcp == Sum32(Live(), TcpOf) && syn == Sum32(Live(), SynOf)
    {
      packets, len, maxPackets, maxLen, tcp, syn := 0, 0, 0, 0, 0, 0;
      for i := 0 to firstNext
        invariant packets == Sum32(first[..i], PacketsOf) && len == Sum32(first[..i], LenOf)
        invariant maxPackets == Max32(first[..i], PacketsOf) && maxLen == Max32(first[..i], LenOf)
        invariant tcp == Sum32(first[..i], TcpOf) && syn == Sum32(first[..i], SynOf)
      {
        assert first[..i + 1][..i] == first[..i];
        packets := Wrap(packets + first[i].packets);
        len := Wrap(len + first[i].len);
        if maxPackets < first[i].packets { maxPackets := first[i].packets; }
        if maxLen < first[i].len { maxLen := first[i].len; }
        tcp := Wrap(tcp + first[i].tcp);
        syn := Wrap(syn + first[i].syn);
      }
    }

    method DumpFirstLayerTable(now: u64)
      requires Shape() && firstNext >= 1
      modifies this`firstNext, this`secondNext, second
      ensures firstNext == 0 && Shape()
      ensures Rows() == Push(old(Rows()), Summary(old(Live()), now / NS_PER_SECOND))
      ensures Live() == [] && Abs() == Dump(old(Abs()), now)
    {
      DropFirstRow();
      ghost var window := second[..secondNext];
      var packets, len, maxPackets, maxLen, tcp, syn := SumTable();
      var row := SecondRow(
        now / NS_PER_SECOND,
        Metrics(firstNext, packets, len, Quotient(packets, firstNext), maxPackets,
                Quotient(len, firstNext), maxLen, tcp, syn),
        0, Undefined, NoKind);
      second[secondNext] := row;
      firstNext := 0;
      secondNext := secondNext + 1;
      assert Rows() == window + [row];
      InspectLast();
    }

    method AddPacketInfo(saddr: u32, totLen: u32, isTcp: bool, isSyn: bool, t1: u64, t2: u64, t3: u64)
      requires Valid()
      modifies this, first, second
      ensures Valid() && readIndex == old(readIndex)
      ensures calls == old(calls) + [Call(Packet(saddr, totLen, isTcp, isSyn), t1, t2, t3)]
      ensures Abs() == AddPacket(old(Abs()), Call(Packet(saddr, totLen, isTcp, isSyn), t1, t2, t3))
    {
      ghost var call := Call(Packet(saddr, totLen, isTcp, isSyn), t1, t2, t3);
      StartPeriod(t1, t2, t3, call);
      RecordPacket(saddr, totLen, isTcp, isSyn);
      calls := calls + [call];
      assert calls[..|calls| - 1] == old(calls);
    }

    // Closes the period that is over, if any.
    method StartPeriod(t1: u64, t2: u64, t3: u64, ghost call: Call)
      requires Shape() && Ok(Abs()) && (call.t1, call.t2, call.t3) == (t1, t2, t3)
      modifies this`firstNext, this`secondNext, this`fromTime, second
      ensures Shape() && Abs() == Roll(old(Abs()), call) && secondNext >= old(secondNext)
    {
      ghost var m := Abs();
      RollCases(m, call);
      if Wrap64(t1 - fromTime) > DUMP_NS_PERIOD {
        if fromTime != 0 {
          DumpFirstLayerTable(t2);
          assert Abs() == Dump(m, t2);
        }
        ghost var dumped := Abs();
        fromTime := t3;
        RolledOver(m, call, dumped, Abs());
      }
    }

    // The search in the first-layer table and the update or insertion.
    method RecordPacket(saddr: u32, totLen: u32, isTcp: bool, isSyn: bool)
      requires Shape()
      modifies this`firstNext, first
      ensures Shape()
      ensures Live() == Record(old(Live()), Packet(saddr, totLen, isTcp, isSyn))
    {
      ghost var table, p := Live(), Packet(saddr, totLen, isTcp, isSyn);
      var found := false;
      var i := 0;
      while i < firstNext
        invariant i <= firstNext == |table| && Live() == table && !found
        invariant forall k | 0 <= k < i :: table[k].saddr != saddr
      {
        if first[i].saddr == saddr {
          found := true;
          var row := first[i];
          row := row.(packets := Wrap(row.packets + 1), len := Wrap(row.len + totLen));
          if isTcp { row := row.(tcp := Wrap(row.tcp + 1)); }
          if isSyn { row := row.(syn := Wrap(row.syn + 1)); }
          first[i] := row;
          FoundAt(table, saddr, i);
          assert row == Bump(table[i], p) && Live() == table[i := row];
          break;
        }
        i := i + 1;
      }
      if !found {
        FoundAt(table, saddr, i);
      }
      if !found && firstNext < FIRST_LAYER_TABLE_LENGTH {
        first[firstNext] := FirstRow(saddr, 1, totLen, if isTcp then 1 else 0, if isSyn then 1 else 0);
        firstNext := firstNext + 1;
        assert Live() == table + [NewRow(p)];
      }
    }

    method ReadL2Data() returns (row: Option<SecondRow>)
      requires Shape() && readIndex <= secondNext
      modifies this`readIndex
      ensures Shape() && readIndex <= secondNext && Abs() == old(Abs()) && (old(Valid()) ==> Valid())
      ensures (row, readIndex) == ReadRow(Rows(), old(readIndex))
    {
      if readIndex >= secondNext {
        readIndex := 0;
        return None;
      }
      row := Some(second[readIndex]);
      readIndex := readIndex + 1;
    }

    // The loop of the command-line client: read until nothing comes back.
    method ReadPass() returns (rows: seq<SecondRow>)
      requires Shape() && readIndex <= secondNext
      modifies this`readIndex
      ensures Shape() && readIndex == 0 && Abs() == old(Abs()) && (old(Valid()) ==> Valid())
      ensures rows == Rows()[old(readIndex)..]
    {
      ghost var w, start := Rows(), readIndex;
      rows := [];
      var row := ReadL2Data();
      while row.Some?
        invariant Shape() && Rows() == w && readIndex <= secondNext
        invariant row.Some? ==> start < readIndex <= |w| && row.value == w[readIndex - 1]
                                && rows == w[start..readIndex - 1]
        invariant row.None? ==> readIndex == 0 && rows == w[start..]
        decreases if row.Some? then |w| - readIndex + 1 else 0
      {
        SliceSnoc(w, start, readIndex - 1);
        rows := rows + [row.value];
        row := ReadL2Data();
      }
    }

    method ReadStats() returns (stats: Stats)
      requires Valid()
      ensures stats == StatsOf(Rows())
    {
      var critCount: nat, firstCrit: u64, lastCrit: u64 := 0, 0, 0;
      for i := 0 to secondNext
        invariant (critCount, firstCrit, lastCrit) == Scan(second[..i])
      {
        assert second[..i + 1][..i] == second[..i];
        if second[i].crit > 0 {
          critCount := critCount + 1;
          if firstCrit == 0 {
            firstCrit := second[i].fromTime;
          }
          lastCrit := second[i].fromTime;
        }
      }
      var start: u64, finish: u64 := 0, 0;
      if secondNext > 0 {
        start := second[0].fromTime;
        finish := second[secondNext - 1].fromTime;
      }
      stats := Stats(SECOND_LAYER_TABLE_LENGTH, secondNext, Wrap64(finish - start), critCount, firstCrit, lastCrit);
    }
  }
}
