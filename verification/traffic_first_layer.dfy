// The first-layer table: one row for each of the first 64 source addresses of a period.
module FirstLayer {
  import opened TrafficTypes

  // ---- What add_packet_info does to the table ----

  function Bump(row: FirstRow, p: Packet): FirstRow {
    FirstRow(row.saddr, Wrap(row.packets + 1), Wrap(row.len + p.len),
             if p.tcp then Wrap(row.tcp + 1) else row.tcp, if p.syn then Wrap(row.syn + 1) else row.syn)
  }

  function NewRow(p: Packet): FirstRow {
    FirstRow(p.saddr, 1, p.len, if p.tcp then 1 else 0, if p.syn then 1 else 0)
  }

  // The first row of a source address, or the length of the table.
  function Find(table: seq<FirstRow>, saddr: u32): (k: nat)
    ensures k <= |table|
    ensures k < |table| ==> table[k].saddr == saddr
    ensures forall j | 0 <= j < k :: table[j].saddr != saddr
  {
    if table == [] || table[0].saddr == saddr then 0 else 1 + Find(table[1..], saddr)
  }

  function Record(table: seq<FirstRow>, p: Packet): seq<FirstRow> {
    var k := Find(table, p.saddr);
    if k < |table| then table[k := Bump(table[k], p)]
    else if |table| < FIRST_LAYER_TABLE_LENGTH then table + [NewRow(p)]
    else table
  }

  // The table after the packets of a period.
  function Table(ps: seq<Packet>): (t: seq<FirstRow>)
    ensures |t| <= FIRST_LAYER_TABLE_LENGTH
    ensures ps != [] ==> t != []
  {
    if ps == [] then [] else Record(Table(ps[..|ps| - 1]), ps[|ps| - 1])
  }

  // ---- An independent account of the same period ----

  // The distinct sources in order of arrival.
  ghost function Sources(ps: seq<Packet>): seq<u32> {
    if ps == [] then []
    else
      var before, s := Sources(ps[..|ps| - 1]), ps[|ps| - 1].saddr;
      if s in before then before else before + [s]
  }

  ghost function First64(s: seq<u32>): seq<u32> {
    if |s| <= FIRST_LAYER_TABLE_LENGTH then s else s[..FIRST_LAYER_TABLE_LENGTH]
  }

  ghost function One(p: Packet): nat { 1 }
  ghost function Bytes(p: Packet): nat { p.len }
  ghost function Tcp(p: Packet): nat { if p.tcp then 1 else 0 }
  ghost function Syn(p: Packet): nat { if p.syn then 1 else 0 }

  // The sum of a weight over the packets of the given sources.
  ghost function SumFrom(ps: seq<Packet>, sources: set<u32>, w: Packet -> nat): nat {
    if ps == [] then 0
    else
      var p := ps[|ps| - 1];
      SumFrom(ps[..|ps| - 1], sources, w) + if p.saddr in sources then w(p) else 0
  }

  ghost function RowFor(ps: seq<Packet>, s: u32): FirstRow {
    FirstRow(s, Wrap(SumFrom(ps, {s}, One)), Wrap(SumFrom(ps, {s}, Bytes)),
             Wrap(SumFrom(ps, {s}, Tcp)), Wrap(SumFrom(ps, {s}, Syn)))
  }

  ghost predicate Distinct(s: seq<u32>) {
    forall i, j | 0 <= i < j < |s| :: s[i] != s[j]
  }

  lemma {:induction false} SourcesDistinct(ps: seq<Packet>)
    ensures Distinct(Sources(ps))
    ensures forall p | p in ps :: p.saddr in Sources(ps)
  {
    if ps != [] {
      SourcesDistinct(ps[..|ps| - 1]);
    }
  }

  lemma {:induction false} AbsentSum(ps: seq<Packet>, s: u32, w: Packet -> nat)
    requires s !in Sources(ps)
    ensures SumFrom(ps, {s}, w) == 0
  {
    if ps != [] {
      AbsentSum(ps[..|ps| - 1], s, w);
    }
  }

  // One more packet and one counter of one source.
  lemma {:induction false} CounterStep(before: seq<Packet>, p: Packet, s: u32, w: Packet -> nat)
    ensures p.saddr != s || w(p) == 0 ==> Wrap(SumFrom(before + [p], {s}, w)) == Wrap(SumFrom(before, {s}, w))
    ensures p.saddr == s ==> Wrap(SumFrom(before + [p], {s}, w)) == Wrap(Wrap(SumFrom(before, {s}, w)) + w(p))
  {
    var ps := before + [p];
    assert ps[..|ps| - 1] == before;
    WrapAdd(SumFrom(before, {s}, w), w(p));
  }

  // One more packet and the row of one source.
  lemma {:induction false} RowStep(before: seq<Packet>, p: Packet, s: u32)
    ensures p.saddr != s ==> RowFor(before + [p], s) == RowFor(before, s)
    ensures p.saddr == s ==> RowFor(before + [p], s) == Bump(RowFor(before, s), p)
  {
    CounterStep(before, p, s, One);
    CounterStep(before, p, s, Bytes);
    CounterStep(before, p, s, Tcp);
    CounterStep(before, p, s, Syn);
  }

  lemma {:induction false} RowFirst(before: seq<Packet>, p: Packet)
    requires p.saddr !in Sources(before)
    ensures RowFor(before + [p], p.saddr) == NewRow(p)
  {
    AbsentSum(before, p.saddr, One);
    AbsentSum(before, p.saddr, Bytes);
    AbsentSum(before, p.saddr, Tcp);
    AbsentSum(before, p.saddr, Syn);
    RowStep(before, p, p.saddr);
  }

  // The table is a map fold: its rows are those of the first 64 distinct sources, in
  // order of arrival, with the counters of all their packets modulo 2^32; packets of
  // later sources change nothing.
  lemma {:induction false} TableIsMapFold(ps: seq<Packet>)
    ensures Distinct(Sources(ps))
    ensures |Table(ps)| == |First64(Sources(ps))|
    ensures forall k | 0 <= k < |Table(ps)| :: Table(ps)[k] == RowFor(ps, Sources(ps)[k])
  {
    SourcesDistinct(ps);
    if ps != [] {
      var before, p := ps[..|ps| - 1], ps[|ps| - 1];
      assert ps == before + [p];
      TableIsMapFold(before);
      var table := Table(before);
      var k := Find(table, p.saddr);
      if k == |table| {
        forall j | 0 <= j < |table| ensures Sources(before)[j] != p.saddr {
          assert table[j].saddr == Sources(before)[j];
        }
      }
      forall i | 0 <= i < |Table(ps)| ensures Table(ps)[i] == RowFor(ps, Sources(ps)[i]) {
        if i < |table| {
          RowStep(before, p, Sources(before)[i]);
          if i != k {
            assert table[i].saddr != p.saddr by {
              if k < |table| {
                assert table[k].saddr == Sources(before)[k];
              }
            }
          }
        } else {
          RowFirst(before, p);
        }
      }
    }
  }

  // ---- Column sums of the table ----

  function PacketsOf(row: FirstRow): u32 { row.packets }
  function LenOf(row: FirstRow): u32 { row.len }
  function TcpOf(row: FirstRow): u32 { row.tcp }
  function SynOf(row: FirstRow): u32 { row.syn }

  ghost function SetOf(s: seq<u32>): set<u32> { set x | x in s }

  // The sources that get a row.
  ghost function Admitted(ps: seq<Packet>): set<u32> { SetOf(First64(Sources(ps))) }

  lemma {:induction false} SumOneMore(ps: seq<Packet>, a: set<u32>, s: u32, w: Packet -> nat)
    requires s !in a
    ensures SumFrom(ps, a + {s}, w) == SumFrom(ps, a, w) + SumFrom(ps, {s}, w)
  {
    if ps != [] {
      SumOneMore(ps[..|ps| - 1], a, s, w);
    }
  }

  lemma {:induction false} SumNobody(ps: seq<Packet>, w: Packet -> nat)
    ensures SumFrom(ps, {}, w) == 0
  {
    if ps != [] {
      SumNobody(ps[..|ps| - 1], w);
    }
  }

  lemma {:induction false} SetOfPrefix(s: seq<u32>, n: nat)
    requires 1 <= n <= |s| && Distinct(s)
    ensures SetOf(s[..n]) == SetOf(s[..n - 1]) + {s[n - 1]} && s[n - 1] !in SetOf(s[..n - 1])
  {
    assert s[..n] == s[..n - 1] + [s[n - 1]];
  }

  lemma {:induction false} ColumnSum(ps: seq<Packet>, n: nat, col: FirstRow -> u32, w: Packet -> nat)
    requires n <= |Table(ps)| <= |Sources(ps)| && Distinct(Sources(ps))
    requires forall k | 0 <= k < |Table(ps)| :: Congruent(col(Table(ps)[k]), SumFrom(ps, {Sources(ps)[k]}, w))
    ensures Congruent(SumExact(Table(ps)[..n], col), SumFrom(ps, SetOf(Sources(ps)[..n]), w))
    decreases n
  {
    var table, sources := Table(ps), Sources(ps);
    if n == 0 {
      assert SetOf(sources[..0]) == {};
      SumNobody(ps, w);
      assert Apart(0, 0, 0);
    } else {
      ColumnSum(ps, n - 1, col, w);
      assert table[..n][..n - 1] == table[..n - 1];
      var a, s := SetOf(sources[..n - 1]), sources[n - 1];
      SetOfPrefix(sources, n);
      SumOneMore(ps, a, s, w);
      CongruentAdd(SumExact(table[..n - 1], col), SumFrom(ps, a, w), col(table[n - 1]), SumFrom(ps, {s}, w),
                   SumExact(table[..n], col), SumFrom(ps, a + {s}, w));
    }
  }

  lemma {:induction false} ColumnWraps(ps: seq<Packet>, col: FirstRow -> u32, w: Packet -> nat)
    requires forall k | 0 <= k < |Table(ps)| && k < |Sources(ps)| ::
               col(Table(ps)[k]) == Wrap(SumFrom(ps, {Sources(ps)[k]}, w))
    ensures Sum32(Table(ps), col) == Wrap(SumFrom(ps, Admitted(ps), w))
  {
    TableIsMapFold(ps);
    var n := |Table(ps)|;
    assert Table(ps)[..n] == Table(ps) && Sources(ps)[..n] == First64(Sources(ps));
    forall k | 0 <= k < n ensures Congruent(col(Table(ps)[k]), SumFrom(ps, {Sources(ps)[k]}, w)) {
      CongruentWrap(SumFrom(ps, {Sources(ps)[k]}, w));
    }
    ColumnSum(ps, n, col, w);
    Sum32Wraps(Table(ps), col);
    CongruentMeans(SumExact(Table(ps), col), SumFrom(ps, Admitted(ps), w));
  }

  // The columns of the table sum to the admitted packets, their bytes and their TCP and
  // SYN packets, modulo 2^32.
  lemma {:induction false} TableSums(ps: seq<Packet>)
    ensures Sum32(Table(ps), PacketsOf) == Wrap(SumFrom(ps, Admitted(ps), One))
    ensures Sum32(Table(ps), LenOf) == Wrap(SumFrom(ps, Admitted(ps), Bytes))
    ensures Sum32(Table(ps), TcpOf) == Wrap(SumFrom(ps, Admitted(ps), Tcp))
    ensures Sum32(Table(ps), SynOf) == Wrap(SumFrom(ps, Admitted(ps), Syn))
  {
    TableIsMapFold(ps);
    ColumnWraps(ps, PacketsOf, One);
    ColumnWraps(ps, LenOf, Bytes);
    ColumnWraps(ps, TcpOf, Tcp);
    ColumnWraps(ps, SynOf, Syn);
  }

  ghost function SumAll(ps: seq<Packet>, w: Packet -> nat): nat {
    if ps == [] then 0 else SumAll(ps[..|ps| - 1], w) + w(ps[|ps| - 1])
  }

  // With at most 64 sources every packet is admitted.
  lemma {:induction false} AllAdmitted(ps: seq<Packet>, w: Packet -> nat)
    requires |Sources(ps)| <= FIRST_LAYER_TABLE_LENGTH
    ensures SumFrom(ps, Admitted(ps), w) == SumAll(ps, w)
  {
    SourcesDistinct(ps);
    SumEverybody(ps, Admitted(ps), w);
  }

  lemma {:induction false} SumEverybody(ps: seq<Packet>, a: set<u32>, w: Packet -> nat)
    requires forall p | p in ps :: p.saddr in a
    ensures SumFrom(ps, a, w) == SumAll(ps, w)
  {
    if ps != [] {
      SumEverybody(ps[..|ps| - 1], a, w);
    }
  }

  lemma {:induction false} CountAll(ps: seq<Packet>)
    ensures SumAll(ps, One) == |ps|
  {
    if ps != [] {
      CountAll(ps[..|ps| - 1]);
    }
  }

  // Bounds on what a period can sum up to.
  lemma {:induction false} SumBounds(ps: seq<Packet>, a: set<u32>)
    requires forall p | p in ps :: FromHook(p)
    ensures SumFrom(ps, a, Syn) <= SumFrom(ps, a, Tcp) <= SumFrom(ps, a, One) <= |ps|
    ensures SumFrom(ps, a, Bytes) <= 0xFFFF * SumFrom(ps, a, One)
  {
    if ps != [] {
      assert FromHook(ps[|ps| - 1]);
      SumBounds(ps[..|ps| - 1], a);
    }
  }
}
