// inspect_last: a new summary row is compared with the averages of the rows before it.
module Detector {
  import opened TrafficTypes

  // The most rows a new row can be compared with.
  const MAX_HISTORY: nat := SECOND_LAYER_TABLE_LENGTH - 1

  function Col(p: Property): SecondRow -> u32 {
    (r: SecondRow) => Get(r.m, p)
  }

  // ---- The limits as the code computes them, in 32-bit arithmetic ----

  function Avg32(hist: seq<SecondRow>, p: Property): u32
    requires hist != []
  {
    Sum32(hist, Col(p)) / |hist|
  }

  function Limit32(avg: u32, p: Property): u32 {
    Wrap(Wrap(avg * (100 + EPS_PERCENT)) / 100 + Get(INITIAL, p))
  }

  predicate Over32(hist: seq<SecondRow>, m: Metrics, p: Property) {
    hist != [] && Get(m, p) > Limit32(Avg32(hist, p), p)
  }

  // ---- The limits in unbounded arithmetic ----

  function AvgExact(hist: seq<SecondRow>, p: Property): nat
    requires hist != []
  {
    SumExact(hist, Col(p)) / |hist|
  }

  function LimitExact(hist: seq<SecondRow>, p: Property): nat
    requires hist != []
  {
    AvgExact(hist, p) * (100 + EPS_PERCENT) / 100 + Get(INITIAL, p)
  }

  predicate OverExact(hist: seq<SecondRow>, m: Metrics, p: Property) {
    hist != [] && Get(m, p) > LimitExact(hist, p)
  }

  // ---- The verdict ----

  // The order in which inspect_last tests the nine fields.
  function Rank(p: Property): nat {
    match p
    case Undefined => 0
    case UniqueSaddrs => 1
    case Packets => 2
    case TotLen => 3
    case AvgPackets => 4
    case MaxPackets => 5
    case AvgLen => 6
    case MaxLen => 7
    case TotTcp => 8
    case TotSyn => 9
  }

  function Nth(n: nat): Property
    requires 1 <= n <= 9
  {
    if n == 1 then UniqueSaddrs
    else if n == 2 then Packets
    else if n == 3 then TotLen
    else if n == 4 then AvgPackets
    else if n == 5 then MaxPackets
    else if n == 6 then AvgLen
    else if n == 7 then MaxLen
    else if n == 8 then TotTcp
    else TotSyn
  }

  // The first of the tests n..9 that succeeds.
  function FirstFrom(over: Property -> bool, n: nat): Property
    requires 1 <= n <= 10
    decreases 10 - n
  {
    if n == 10 then Undefined else if over(Nth(n)) then Nth(n) else FirstFrom(over, n + 1)
  }

  function Verdict(hist: seq<SecondRow>, m: Metrics): Property {
    FirstFrom(p => Over32(hist, m, p), 1)
  }

  function VerdictExact(hist: seq<SecondRow>, m: Metrics): Property {
    FirstFrom(p => OverExact(hist, m, p), 1)
  }

  // The row as inspect_last leaves it.
  function Inspect(hist: seq<SecondRow>, row: SecondRow): (r: SecondRow)
    ensures r.m == row.m && r.fromTime == row.fromTime
  {
    var p := Verdict(hist, row.m);
    if p == Undefined then row else row.(crit := 1, property := p, kind := Increase)
  }

  ghost predicate Fresh(row: SecondRow) { row.crit == 0 && row.property == Undefined && row.kind == NoKind }

  // The result is the first property over its limit from test n on; none if none is over.
  lemma {:induction false} FirstFromMeaning(over: Property -> bool, n: nat, p: Property)
    requires 1 <= n <= 10 && Rank(p) >= n
    ensures FirstFrom(over, n) == p <==> over(p) && forall q: Property | n <= Rank(q) < Rank(p) :: !over(q)
    ensures FirstFrom(over, n) == Undefined <==> forall q: Property | n <= Rank(q) :: !over(q)
    decreases 10 - n
  {
    if n <= 9 {
      assert Rank(Nth(n)) == n && forall q: Property | Rank(q) == n :: q == Nth(n);
      if Rank(p) > n {
        FirstFromMeaning(over, n + 1, p);
      } else if n < 9 {
        FirstFromMeaning(over, n + 1, Nth(n + 1));
      }
    }
  }

  lemma {:induction false} FirstFromSame(over: Property -> bool, over': Property -> bool, n: nat)
    requires 1 <= n <= 10 && forall p :: over(p) == over'(p)
    ensures FirstFrom(over, n) == FirstFrom(over', n)
    decreases 10 - n
  {
    if n <= 9 {
      FirstFromSame(over, over', n + 1);
    }
  }

  lemma FirstMeaning(over: Property -> bool, p: Property)
    requires p != Undefined
    ensures FirstFrom(over, 1) == p <==> over(p) && forall q: Property | q != Undefined && Rank(q) < Rank(p) :: !over(q)
    ensures FirstFrom(over, 1) == Undefined <==> forall q: Property | q != Undefined :: !over(q)
  {
    FirstFromMeaning(over, 1, p);
  }

  // A fresh row is flagged iff some field exceeds its limit.
  lemma {:induction false} FlaggedIff(hist: seq<SecondRow>, row: SecondRow)
    requires Fresh(row)
    ensures Inspect(hist, row).crit == 1 <==> exists q: Property :: q != Undefined && Over32(hist, row.m, q)
  {
    FirstMeaning(q => Over32(hist, row.m, q), UniqueSaddrs);
  }

  // The property named is the first such field in the order of the tests.
  lemma {:induction false} NamedFirst(hist: seq<SecondRow>, row: SecondRow, p: Property)
    requires Fresh(row) && p != Undefined
    ensures Inspect(hist, row).property == p
            <==> Over32(hist, row.m, p)
                 && forall q: Property | q != Undefined && Rank(q) < Rank(p) :: !Over32(hist, row.m, q)
  {
    FirstMeaning(q => Over32(hist, row.m, q), p);
  }

  // Flag, type and property agree.
  ghost predicate Coherent(row: SecondRow) {
    row.crit == (if row.property == Undefined then 0 else 1)
    && row.kind == (if row.property == Undefined then NoKind else Increase)
  }

  // ---- Wrap-around ----

  // The sum and the product with 130 both fit 32 bits.
  predicate NoWrap(hist: seq<SecondRow>, p: Property) {
    hist != [] && SumExact(hist, Col(p)) < U32 && AvgExact(hist, p) * (100 + EPS_PERCENT) < U32
  }

  lemma DivStep(s: nat, n: nat)
    requires 1 <= n <= s
    ensures (s - n) / n == s / n - 1
  {
    var q := s / n;
    assert s - n == n * (q - 1) + s % n;
    DivUnique(s - n, n, q - 1, s % n);
  }

  lemma MulStep(n: nat, a: int, b: int)
    ensures a < b ==> n * a + n <= n * b
  {
    if a < b {
      var d := b - a - 1;
      assert n * b == n * a + n * d + n;
      assert n * d >= 0;
    }
  }

  lemma DivUnique(x: int, n: int, q: int, r: int)
    requires n >= 1 && 0 <= r < n && x == n * q + r
    ensures x / n == q
  {
    MulStep(n, x / n, q);
    MulStep(n, q, x / n);
  }

  lemma DivMonotone(x: nat, y: nat, n: nat)
    requires x <= y && n >= 1
    ensures x / n <= y / n
  {
    MulStep(n, y / n, x / n);
  }

  // Losing a multiple of 2^32 from a sum lowers its average.
  lemma WrappedAverage(s: nat, n: nat)
    requires 1 <= n <= MAX_HISTORY
    ensures if s < U32 then Wrap(s) / n == s / n else Wrap(s) / n < s / n
  {
    if s >= U32 {
      DivStep(s, n);
      DivMonotone(Wrap(s), s - n, n);
    }
  }

  // Wrap-around can only lower a limit, and lowers it exactly when something wraps.
  lemma {:induction false} LimitWraps(hist: seq<SecondRow>, p: Property)
    requires 1 <= |hist| <= MAX_HISTORY
    ensures Limit32(Avg32(hist, p), p) <= LimitExact(hist, p)
    ensures Limit32(Avg32(hist, p), p) == LimitExact(hist, p) <==> NoWrap(hist, p)
  {
    Sum32Wraps(hist, Col(p));
    WrappedAverage(SumExact(hist, Col(p)), |hist|);
    LimitOrder(Avg32(hist, p), AvgExact(hist, p), p);
  }

  lemma LimitOrder(avg: u32, exact: nat, p: Property)
    requires avg <= exact
    ensures var limit := exact * (100 + EPS_PERCENT) / 100 + Get(INITIAL, p);
            && Limit32(avg, p) <= limit
            && (Limit32(avg, p) == limit <==> avg == exact && exact * (100 + EPS_PERCENT) < U32)
  {
    assert Get(INITIAL, p) <= 1000000;
    WrapBelow(avg * (100 + EPS_PERCENT));
    WrapFits(Wrap(avg * (100 + EPS_PERCENT)) / 100 + Get(INITIAL, p));
  }

  // Wrap-around never hides an alarm: whatever the unbounded detector flags, the code flags.
  lemma {:induction false} NeverMissed(hist: seq<SecondRow>, m: Metrics)
    requires |hist| <= MAX_HISTORY && VerdictExact(hist, m) != Undefined
    ensures Verdict(hist, m) != Undefined
  {
    var p := VerdictExact(hist, m);
    FirstMeaning(q => OverExact(hist, m, q), p);
    LimitWraps(hist, p);
    FirstMeaning(q => Over32(hist, m, q), p);
  }

  ghost predicate NoWraps(hist: seq<SecondRow>) {
    hist != [] ==> forall p :: NoWrap(hist, p)
  }

  // Without wrap-around the two detectors agree.
  lemma {:induction false} SameVerdict(hist: seq<SecondRow>, m: Metrics)
    requires |hist| <= MAX_HISTORY && NoWraps(hist)
    ensures Verdict(hist, m) == VerdictExact(hist, m)
  {
    if hist != [] {
      forall p ensures Over32(hist, m, p) == OverExact(hist, m, p) {
        LimitWraps(hist, p);
        assert NoWrap(hist, p);
      }
    }
    FirstFromSame(p => Over32(hist, m, p), p => OverExact(hist, m, p), 1);
  }

  // On a single row the detectors agree exactly when the field that raises the code's alarm,
  // if any, is over its exact limit too.
  lemma {:induction false} SameVerdictIff(hist: seq<SecondRow>, m: Metrics)
    requires |hist| <= MAX_HISTORY
    ensures Verdict(hist, m) == VerdictExact(hist, m)
            <==> Verdict(hist, m) == Undefined || OverExact(hist, m, Verdict(hist, m))
  {
    var p := Verdict(hist, m);
    forall q | OverExact(hist, m, q) ensures Over32(hist, m, q) {
      LimitWraps(hist, q);
    }
    var q := if p == Undefined then UniqueSaddrs else p;
    FirstMeaning(r => Over32(hist, m, r), q);
    FirstMeaning(r => OverExact(hist, m, r), q);
  }

  // A row in which one field only is not zero.
  function Only(p: Property, x: u32): (m: Metrics)
    requires p != Undefined
    ensures forall q :: Get(m, q) == if q == p then x else 0
  {
    Metrics(if p == UniqueSaddrs then x else 0, if p == Packets then x else 0, if p == TotLen then x else 0,
            if p == AvgPackets then x else 0, if p == MaxPackets then x else 0, if p == AvgLen then x else 0,
            if p == MaxLen then x else 0, if p == TotTcp then x else 0, if p == TotSyn then x else 0)
  }

  lemma LimitRoom(avg: u32, p: Property)
    ensures Limit32(avg, p) + 1 < U32
  {
    assert Get(INITIAL, p) <= 1000000;
  }

  // A limit lowered by wrap-around separates the two detectors.
  lemma {:induction false} WrapTells(hist: seq<SecondRow>, p: Property) returns (m: Metrics)
    requires 1 <= |hist| <= MAX_HISTORY && p != Undefined && !NoWrap(hist, p)
    ensures Verdict(hist, m) != VerdictExact(hist, m)
  {
    LimitWraps(hist, p);
    LimitRoom(Avg32(hist, p), p);
    m := Only(p, Limit32(Avg32(hist, p), p) + 1);
    FirstMeaning(q => Over32(hist, m, q), p);
    SameVerdictIff(hist, m);
  }

  lemma {:induction false} UndefinedNeverWraps(hist: seq<SecondRow>)
    requires hist != []
    ensures NoWrap(hist, Undefined)
  {
    SumConstant(hist, Undefined, 0);
  }

  // The two detectors give the same verdict on every row exactly when nothing wraps.
  lemma {:induction false} SameVerdictsIff(hist: seq<SecondRow>)
    requires 1 <= |hist| <= MAX_HISTORY
    ensures (forall m :: Verdict(hist, m) == VerdictExact(hist, m)) <==> forall p :: NoWrap(hist, p)
  {
    if forall p :: NoWrap(hist, p) {
      forall m ensures Verdict(hist, m) == VerdictExact(hist, m) {
        SameVerdict(hist, m);
      }
    } else {
      var p :| !NoWrap(hist, p);
      UndefinedNeverWraps(hist);
      var m := WrapTells(hist, p);
    }
  }

  // Without wrap-around, the flag and the property of a new row are those of unbounded arithmetic.
  lemma {:induction false} ExactVerdict(hist: seq<SecondRow>, row: SecondRow, p: Property)
    requires |hist| <= MAX_HISTORY && Fresh(row) && p != Undefined && NoWraps(hist)
    ensures Inspect(hist, row).crit == 1 <==> exists q: Property :: q != Undefined && OverExact(hist, row.m, q)
    ensures Inspect(hist, row).property == p
            <==> OverExact(hist, row.m, p)
                 && forall q: Property | q != Undefined && Rank(q) < Rank(p) :: !OverExact(hist, row.m, q)
  {
    SameVerdict(hist, row.m);
    FirstMeaning(q => OverExact(hist, row.m, q), p);
  }

  // ---- The verdict field by field, in the numbers of the source ----

  ghost function Sum(column: seq<nat>): nat {
    if column == [] then 0 else Sum(column[..|column| - 1]) + column[|column| - 1]
  }

  // The limit for a new value after a column of values: in uint32_t arithmetic, and without wrap-around.
  ghost function LimitAfter(column: seq<nat>, initial: int): int
    requires column != []
  {
    Sum(column) % 4294967296 / |column| * 130 % 4294967296 / 100 + initial
  }

  ghost function ExactLimitAfter(column: seq<nat>, initial: int): int
    requires column != []
  {
    Sum(column) / |column| * 130 / 100 + initial
  }

  lemma {:induction false} ColumnSumIs(hist: seq<SecondRow>, p: Property, column: seq<nat>)
    requires |hist| == |column| && forall k | 0 <= k < |hist| :: Get(hist[k].m, p) == column[k]
    ensures SumExact(hist, Col(p)) == Sum(column)
  {
    if hist != [] {
      ColumnSumIs(hist[..|hist| - 1], p, column[..|column| - 1]);
    }
  }

  lemma {:induction false} ColumnLimit(hist: seq<SecondRow>, p: Property, column: seq<nat>, initial: int)
    requires hist != [] && |hist| == |column| && forall k | 0 <= k < |hist| :: Get(hist[k].m, p) == column[k]
    requires Get(INITIAL, p) == initial
    ensures Limit32(Avg32(hist, p), p) == LimitAfter(column, initial)
    ensures LimitExact(hist, p) == ExactLimitAfter(column, initial)
  {
    ColumnSumIs(hist, p, column);
    Sum32Wraps(hist, Col(p));
    LimitFits(Avg32(hist, p), p);
  }

  lemma LimitFits(avg: u32, p: Property)
    ensures Limit32(avg, p) == avg * 130 % 4294967296 / 100 + Get(INITIAL, p)
  {
    assert Get(INITIAL, p) <= 1000000;
    WrapFits(Wrap(avg * (100 + EPS_PERCENT)) / 100 + Get(INITIAL, p));
  }

  // The tests in the order of the source.
  lemma TestsInOrder(over: Property -> bool)
    ensures FirstFrom(over, 1) ==
            if over(UniqueSaddrs) then UniqueSaddrs
            else if over(Packets) then Packets
            else if over(TotLen) then TotLen
            else if over(AvgPackets) then AvgPackets
            else if over(MaxPackets) then MaxPackets
            else if over(AvgLen) then AvgLen
            else if over(MaxLen) then MaxLen
            else if over(TotTcp) then TotTcp
            else if over(TotSyn) then TotSyn
            else Undefined
  {
    assert FirstFrom(over, 9) == if over(TotSyn) then TotSyn else Undefined;
    assert FirstFrom(over, 7) == if over(MaxLen) then MaxLen else if over(TotTcp) then TotTcp else FirstFrom(over, 9);
    assert FirstFrom(over, 5)
        == if over(MaxPackets) then MaxPackets else if over(AvgLen) then AvgLen else FirstFrom(over, 7);
    assert FirstFrom(over, 3)
        == if over(TotLen) then TotLen else if over(AvgPackets) then AvgPackets else FirstFrom(over, 5);
  }

  // The tests of a row, in order: with the limits as the code computes them and in unbounded arithmetic.
  lemma VerdictInOrder(hist: seq<SecondRow>, m: Metrics)
    ensures Verdict(hist, m) ==
            if Over32(hist, m, UniqueSaddrs) then UniqueSaddrs
            else if Over32(hist, m, Packets) then Packets
            else if Over32(hist, m, TotLen) then TotLen
            else if Over32(hist, m, AvgPackets) then AvgPackets
            else if Over32(hist, m, MaxPackets) then MaxPackets
            else if Over32(hist, m, AvgLen) then AvgLen
            else if Over32(hist, m, MaxLen) then MaxLen
            else if Over32(hist, m, TotTcp) then TotTcp
            else if Over32(hist, m, TotSyn) then TotSyn
            else Undefined
    ensures VerdictExact(hist, m) ==
            if OverExact(hist, m, UniqueSaddrs) then UniqueSaddrs
            else if OverExact(hist, m, Packets) then Packets
            else if OverExact(hist, m, TotLen) then TotLen
            else if OverExact(hist, m, AvgPackets) then AvgPackets
            else if OverExact(hist, m, MaxPackets) then MaxPackets
            else if OverExact(hist, m, AvgLen) then AvgLen
            else if OverExact(hist, m, MaxLen) then MaxLen
            else if OverExact(hist, m, TotTcp) then TotTcp
            else if OverExact(hist, m, TotSyn) then TotSyn
            else Undefined
  {
    TestsInOrder(p => Over32(hist, m, p));
    TestsInOrder(p => OverExact(hist, m, p));
  }

  // What each test compares: the field of the new row that the property is about with the limit
  // that follows from the column of that field in the rows before.
  lemma {:induction false} FieldTest(hist: seq<SecondRow>, m: Metrics, p: Property, column: seq<nat>)
    requires p != Undefined && |hist| == |column| >= 1
    requires forall k | 0 <= k < |hist| ::
               column[k] == match p
                            case Undefined => 0
                            case UniqueSaddrs => hist[k].m.unique
                            case Packets => hist[k].m.packets
                            case TotLen => hist[k].m.totLen
                            case AvgPackets => hist[k].m.avgPackets
                            case MaxPackets => hist[k].m.maxPackets
                            case AvgLen => hist[k].m.avgLen
                            case MaxLen => hist[k].m.maxLen
                            case TotTcp => hist[k].m.totTcp
                            case TotSyn => hist[k].m.totSyn
    ensures Over32(hist, m, p) <==>
            match p
            case Undefined => false
            case UniqueSaddrs => m.unique > LimitAfter(column, 10)
            case Packets => m.packets > LimitAfter(column, 100)
            case TotLen => m.totLen > LimitAfter(column, 1000000)
            case AvgPackets => m.avgPackets > LimitAfter(column, 50)
            case MaxPackets => m.maxPackets > LimitAfter(column, 50)
            case AvgLen => m.avgLen > LimitAfter(column, 300000)
            case MaxLen => m.maxLen > LimitAfter(column, 300000)
            case TotTcp => m.totTcp > LimitAfter(column, 100)
            case TotSyn => m.totSyn > LimitAfter(column, 100)
    ensures OverExact(hist, m, p) <==>
            match p
            case Undefined => false
            case UniqueSaddrs => m.unique > ExactLimitAfter(column, 10)
            case Packets => m.packets > ExactLimitAfter(column, 100)
            case TotLen => m.totLen > ExactLimitAfter(column, 1000000)
            case AvgPackets => m.avgPackets > ExactLimitAfter(column, 50)
            case MaxPackets => m.maxPackets > ExactLimitAfter(column, 50)
            case AvgLen => m.avgLen > ExactLimitAfter(column, 300000)
            case MaxLen => m.maxLen > ExactLimitAfter(column, 300000)
            case TotTcp => m.totTcp > ExactLimitAfter(column, 100)
            case TotSyn => m.totSyn > ExactLimitAfter(column, 100)
  {
    ColumnLimit(hist, p, column, Get(INITIAL, p));
  }

  // ---- A bound on the rows that rules wrap-around out ----

  const SAFE_VALUE: int := 8405024

  ghost predicate SafeRow(row: SecondRow) {
    forall p :: Get(row.m, p) <= SAFE_VALUE
  }

  lemma {:induction false} SafeColumn(hist: seq<SecondRow>, p: Property)
    requires 1 <= |hist| <= MAX_HISTORY && forall r | r in hist :: SafeRow(r)
    ensures NoWrap(hist, p)
  {
    forall k | 0 <= k < |hist| ensures Col(p)(hist[k]) <= SAFE_VALUE {
      assert SafeRow(hist[k]);
    }
    SumUpTo(hist, Col(p), SAFE_VALUE);
    AverageUpTo(SumExact(hist, Col(p)), |hist|, SAFE_VALUE);
  }

  lemma {:induction false} SafeRows(hist: seq<SecondRow>, m: Metrics)
    requires |hist| <= MAX_HISTORY && forall r | r in hist :: SafeRow(r)
    ensures NoWraps(hist)
    ensures Verdict(hist, m) == VerdictExact(hist, m)
  {
    if hist != [] {
      forall p ensures NoWrap(hist, p) {
        SafeColumn(hist, p);
      }
    }
    SameVerdict(hist, m);
  }

  lemma AverageUpTo(s: nat, n: nat, b: nat)
    requires 1 <= n <= MAX_HISTORY && s <= n * b
    ensures s / n <= b && s <= MAX_HISTORY * b
  {
    DivMonotone(s, n * b, n);
    DivUnique(n * b, n, b, 0);
    assert n * b <= MAX_HISTORY * b;
  }

  lemma {:induction false} SumConstant(hist: seq<SecondRow>, p: Property, x: nat)
    requires forall k | 0 <= k < |hist| :: Get(hist[k].m, p) == x
    ensures SumExact(hist, Col(p)) == |hist| * x
  {
    if hist != [] {
      SumConstant(hist[..|hist| - 1], p, x);
      assert |hist| * x == (|hist| - 1) * x + x;
    }
  }

  // ---- Traffic that is never flagged ----

  // A row that is nowhere above the average of its history is not flagged.
  lemma {:induction false} QuietRow(hist: seq<SecondRow>, m: Metrics)
    requires |hist| <= MAX_HISTORY && NoWraps(hist)
    requires hist != [] ==> forall p :: Get(m, p) <= AvgExact(hist, p)
    ensures Verdict(hist, m) == Undefined
  {
    SameVerdict(hist, m);
    forall p ensures !OverExact(hist, m, p) {
    }
    FirstMeaning(p => OverExact(hist, m, p), UniqueSaddrs);
  }

  // The bound under which h equal values and the 130-fold of one of them fit 32 bits.
  predicate Small(h: nat, x: nat) { h * x < U32 && (100 + EPS_PERCENT) * x < U32 }

  // An average whose sum has wrapped lies far below the value.
  lemma WrappedGap(h: nat, x: u32, a: nat)
    requires 1 <= h <= MAX_HISTORY && h * x >= U32 && h * a <= Wrap(h * x)
    ensures a < x - a && x - a >= SAFE_VALUE + 1
  {
    var d := x - a;
    WrapBelow(h * x);
    assert h * d == h * x - h * a;
    assert h * d >= U32 && h * d > h * a;
    if d <= a { MulOrder(h, d, a); }
    if d <= SAFE_VALUE { MulOrder(h, d, SAFE_VALUE); }
  }

  lemma MulOrder(h: nat, a: int, b: int)
    requires a <= b
    ensures h * a <= h * b
  {
  }

  lemma QuotientBelow(s: nat, h: nat)
    requires h >= 1
    ensures h * (s / h) <= s
  {
  }

  lemma LimitBelow(a: u32, x: u32, p: Property)
    requires a < x - a && x - a >= SAFE_VALUE + 1
    ensures Limit32(a, p) < x
  {
    assert Get(INITIAL, p) <= 1000000;
    WrapBelow(130 * a);
  }

  // The limit stays below a value whose sum wraps: what is lost is more than what is added.
  lemma WrappedSumAlarms(h: nat, x: u32, a: u32, p: Property)
    requires 1 <= h <= MAX_HISTORY && h * x >= U32 && h * a <= Wrap(h * x)
    ensures Limit32(a, p) < x
  {
    WrappedGap(h, x, a);
    LimitBelow(a, x, p);
  }

  lemma WrappedProductAlarms(x: u32, p: Property)
    requires (100 + EPS_PERCENT) * x >= U32
    ensures Limit32(x, p) < x
  {
    assert Get(INITIAL, p) <= 1000000;
    WrapBelow(130 * x);
  }

  lemma SmallStays(x: u32, p: Property)
    requires (100 + EPS_PERCENT) * x < U32
    ensures x <= Limit32(x, p)
  {
    assert Get(INITIAL, p) <= 1000000;
    WrapFits(130 * x);
    WrapFits(130 * x / 100 + Get(INITIAL, p));
  }

  // A row that repeats its history: a field is over its limit exactly when something wraps.
  lemma {:induction false} RepeatedField(hist: seq<SecondRow>, m: Metrics, p: Property)
    requires 1 <= |hist| <= MAX_HISTORY && forall k | 0 <= k < |hist| :: hist[k].m == m
    ensures Over32(hist, m, p) <==> !Small(|hist|, Get(m, p))
  {
    var h, x := |hist|, Get(m, p);
    SumConstant(hist, p, x);
    Sum32Wraps(hist, Col(p));
    if h * x >= U32 {
      QuotientBelow(Wrap(h * x), h);
      WrappedSumAlarms(h, x, Avg32(hist, p), p);
    } else {
      WrapFits(h * x);
      DivUnique(h * x, h, x, 0);
      if 130 * x >= U32 {
        WrappedProductAlarms(x, p);
      } else {
        SmallStays(x, p);
      }
    }
  }

  // Steady traffic: a row equal to all rows before it is left alone exactly when in no
  // field the sum of the history or the 130-fold of the value exceeds 32 bits.
  lemma {:induction false} RepeatedRow(hist: seq<SecondRow>, m: Metrics)
    requires 1 <= |hist| <= MAX_HISTORY && forall k | 0 <= k < |hist| :: hist[k].m == m
    ensures Verdict(hist, m) == Undefined <==> forall p :: Small(|hist|, Get(m, p))
  {
    forall p ensures Over32(hist, m, p) <==> !Small(|hist|, Get(m, p)) {
      RepeatedField(hist, m, p);
    }
    FirstMeaning(p => Over32(hist, m, p), UniqueSaddrs);
    assert Small(|hist|, Get(m, Undefined));
  }

  lemma {:induction false} RepeatedInspect(hist: seq<SecondRow>, row: SecondRow)
    requires |hist| <= MAX_HISTORY && Fresh(row) && forall k | 0 <= k < |hist| :: hist[k].m == row.m
    ensures Inspect(hist, row).crit == 0 <==> hist == [] || forall p :: Small(|hist|, Get(row.m, p))
  {
    if hist != [] {
      RepeatedRow(hist, row.m);
    } else {
      FirstMeaning(p => Over32(hist, row.m, p), UniqueSaddrs);
    }
  }

  lemma SmallMeans(x: nat)
    ensures Small(MAX_HISTORY, x) <==> x <= SAFE_VALUE
  {
  }

  // For a full history that is: when every field is at most 8405024.
  lemma {:induction false} FullHistory(hist: seq<SecondRow>, m: Metrics)
    requires |hist| == MAX_HISTORY && forall k | 0 <= k < |hist| :: hist[k].m == m
    ensures Verdict(hist, m) == Undefined <==> forall p :: Get(m, p) <= SAFE_VALUE
  {
    RepeatedRow(hist, m);
    forall p ensures Small(MAX_HISTORY, Get(m, p)) <==> Get(m, p) <= SAFE_VALUE {
      SmallMeans(Get(m, p));
    }
  }
}
