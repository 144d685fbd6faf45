// The tables and constants of course_work/code/core_module.c.
module TrafficTypes {
  const U32: int := 0x1_0000_0000

  type u32 = x: int | 0 <= x < 0x1_0000_0000
  type u64 = x: int | 0 <= x < 0x1_0000_0000_0000_0000

  // Unsigned 32-bit and 64-bit results wrap around.
  function Wrap(x: int): u32 { x % 0x1_0000_0000 }
  function Wrap64(x: int): u64 { x % 0x1_0000_0000_0000_0000 }

  lemma WrapFits(x: int)
    requires 0 <= x < U32
    ensures Wrap(x) == x
  {
  }

  // The remainder is the only number below 2^32 that differs from x by a multiple of 2^32.
  lemma WrapUnique(x: int, q: int, r: int)
    requires 0 <= r < U32 && x == q * U32 + r
    ensures Wrap(x) == r
  {
  }

  lemma WrapParts(x: int)
    ensures x == (x / U32) * U32 + Wrap(x)
  {
  }

  lemma WrapAdd(x: int, y: int)
    ensures Wrap(Wrap(x) + y) == Wrap(x + y)
    ensures Wrap(y + Wrap(x)) == Wrap(y + x)
  {
    var sum := Wrap(x) + y;
    WrapParts(x);
    WrapParts(sum);
    WrapUnique(x + y, x / U32 + sum / U32, Wrap(sum));
  }

  lemma WrapBelow(x: nat)
    ensures if x < U32 then Wrap(x) == x else Wrap(x) <= x - U32
  {
  }

  // Equality modulo 2^32.
  ghost predicate Congruent(x: int, y: int) {
    exists q: int :: Apart(x, y, q)
  }

  ghost predicate Apart(x: int, y: int, q: int) { x - y == q * U32 }

  lemma CongruentWrap(x: int)
    ensures Congruent(Wrap(x), x)
  {
    assert Apart(Wrap(x), x, -(x / U32));
  }

  lemma CongruentAdd(x: int, y: int, z: int, t: int, a: int, b: int)
    requires Congruent(x, y) && Congruent(z, t) && a == x + z && b == y + t
    ensures Congruent(a, b)
  {
    var q: int :| Apart(x, y, q);
    var r: int :| Apart(z, t, r);
    assert Apart(a, b, q + r);
  }

  lemma CongruentMeans(x: int, y: int)
    ensures Congruent(x, y) <==> Wrap(x) == Wrap(y)
  {
    if Congruent(x, y) {
      var q: int :| Apart(x, y, q);
    }
    if Wrap(x) == Wrap(y) {
      assert Apart(x, y, x / U32 - y / U32);
    }
  }

  const DUMP_NS_PERIOD: int := 10_000_000_000
  const NS_PER_SECOND: int := 1_000_000_000
  const FIRST_LAYER_TABLE_LENGTH: nat := 64
  const SECOND_LAYER_TABLE_LENGTH: nat := 512

  // The arguments of add_packet_info.
  datatype Packet = Packet(saddr: u32, len: u32, tcp: bool, syn: bool)

  // What catch_traffic can pass on: a 16-bit total length (section 3.1 of RFC 791), and
  // the SYN flag only of TCP packets.
  predicate FromHook(p: Packet) { p.len < 0x1_0000 && (p.syn ==> p.tcp) }

  // One call of add_packet_info with its clock readings in ns: the test of the period,
  // the time stamp of a dump, and the start of the new period.
  datatype Call = Call(p: Packet, t1: u64, t2: u64, t3: u64)

  datatype FirstRow = FirstRow(saddr: u32, packets: u32, len: u32, tcp: u32, syn: u32)

  // The nine numbers of a summary row that the detector compares.
  datatype Metrics = Metrics(
    unique: u32, packets: u32, totLen: u32, avgPackets: u32, maxPackets: u32,
    avgLen: u32, maxLen: u32, totTcp: u32, totSyn: u32)

  datatype Property =
    | Undefined | UniqueSaddrs | Packets | TotLen | AvgPackets | MaxPackets | AvgLen | MaxLen | TotTcp | TotSyn

  datatype Kind = NoKind | Increase | Fall

  datatype SecondRow = SecondRow(fromTime: u64, m: Metrics, crit: int, property: Property, kind: Kind)

  // The value a property refers to.
  function Get(m: Metrics, p: Property): u32 {
    match p
    case Undefined => 0
    case UniqueSaddrs => m.unique
    case Packets => m.packets
    case TotLen => m.totLen
    case AvgPackets => m.avgPackets
    case MaxPackets => m.maxPackets
    case AvgLen => m.avgLen
    case MaxLen => m.maxLen
    case TotTcp => m.totTcp
    case TotSyn => m.totSyn
  }

  const INITIAL := Metrics(10, 100, 1000000, 50, 50, 300000, 300000, 100, 100)
  const EPS_PERCENT: int := 30

  // ---- Sums and maxima over the rows of a table ----

  // A uint32_t accumulator.
  function Sum32<T>(rows: seq<T>, w: T -> u32): u32 {
    if rows == [] then 0 else Wrap(Sum32(rows[..|rows| - 1], w) + w(rows[|rows| - 1]))
  }

  // The same sum without wrap-around.
  function SumExact<T>(rows: seq<T>, w: T -> u32): nat {
    if rows == [] then 0 else SumExact(rows[..|rows| - 1], w) + w(rows[|rows| - 1])
  }

  lemma {:induction false} SumSnoc<T>(rows: seq<T>, r: T, w: T -> u32)
    ensures SumExact(rows + [r], w) == SumExact(rows, w) + w(r)
  {
    assert (rows + [r])[..|rows|] == rows;
  }

  function Max32<T>(rows: seq<T>, w: T -> u32): u32 {
    if rows == [] then 0
    else
      var m, x := Max32(rows[..|rows| - 1], w), w(rows[|rows| - 1]);
      if m < x then x else m
  }

  lemma SingleRow<T>(r: T, w: T -> u32)
    ensures Sum32([r], w) == SumExact([r], w) == Max32([r], w) == w(r)
  {
    assert [r][..0] == [];
    WrapFits(w(r));
  }

  lemma {:induction false} Sum32Wraps<T>(rows: seq<T>, w: T -> u32)
    ensures Sum32(rows, w) == Wrap(SumExact(rows, w))
  {
    if rows != [] {
      Sum32Wraps(rows[..|rows| - 1], w);
      WrapAdd(SumExact(rows[..|rows| - 1], w), w(rows[|rows| - 1]));
    }
  }

  lemma {:induction false} MaxIsMax<T>(rows: seq<T>, w: T -> u32)
    ensures forall k | 0 <= k < |rows| :: w(rows[k]) <= Max32(rows, w)
    ensures rows != [] ==> exists k :: 0 <= k < |rows| && w(rows[k]) == Max32(rows, w)
    ensures Max32(rows, w) <= SumExact(rows, w)
  {
    if rows != [] {
      var init, last := rows[..|rows| - 1], rows[|rows| - 1];
      MaxIsMax(init, w);
      assert forall k | 0 <= k < |init| :: rows[k] == init[k];
      if w(last) > Max32(init, w) || init == [] {
        assert w(rows[|rows| - 1]) == Max32(rows, w);
      } else {
        var k :| 0 <= k < |init| && w(init[k]) == Max32(init, w);
        assert w(rows[k]) == Max32(rows, w);
      }
    }
  }

  lemma {:induction false} SumUpTo<T>(rows: seq<T>, w: T -> u32, b: nat)
    requires forall k | 0 <= k < |rows| :: w(rows[k]) <= b
    ensures SumExact(rows, w) <= |rows| * b
  {
    if rows != [] {
      SumUpTo(rows[..|rows| - 1], w, b);
      assert |rows| * b == (|rows| - 1) * b + b;
    }
  }

  lemma {:induction false} MaxBounds<T>(rows: seq<T>, w: T -> u32)
    ensures Max32(rows, w) <= SumExact(rows, w) <= |rows| * Max32(rows, w)
  {
    MaxIsMax(rows, w);
    SumUpTo(rows, w, Max32(rows, w));
  }
}
