// The read cursor of read_l2_data while packets keep arriving.
module Cursor {
  import opened Wrappers
  import opened TrafficTypes
  import opened Window
  import opened Clock
  import opened Traces

  // One read: the row under the cursor, or none and the cursor back at the start.
  function ReadRow(window: seq<SecondRow>, cursor: nat): (Option<SecondRow>, nat) {
    if cursor >= |window| then (None, 0) else (Some(window[cursor]), cursor + 1)
  }

  // What can happen to the module: a packet or a read.
  datatype Event = Add(c: Call) | Read

  // A row returned by a read, and how many periods had been closed by then.
  datatype Hit = Hit(closed: nat, row: SecondRow)

  // pass: the rows returned since the cursor was last reset.
  datatype Device = Device(calls: seq<Call>, cursor: nat, pass: seq<Hit>)

  // How many of the first n rows have left the window.
  ghost function Evicted(n: nat): nat {
    if n <= SECOND_LAYER_TABLE_LENGTH then 0 else n - SECOND_LAYER_TABLE_LENGTH
  }

  ghost function Step(d: Device, e: Event): Device {
    match e
    case Add(c) => d.(calls := d.calls + [c])
    case Read =>
      match ReadRow(RunCalls(d.calls).window, d.cursor)
      case (None, next) => d.(cursor := next, pass := [])
      case (Some(row), next) => d.(cursor := next, pass := d.pass + [Hit(|CutOf(d.calls).closed|, row)])
  }

  ghost function Session(events: seq<Event>): Device {
    if events == [] then Device([], 0, []) else Step(Session(events[..|events| - 1]), events[|events| - 1])
  }

  ghost function Rows(calls: seq<Call>): seq<SecondRow> {
    CutNonEmpty(calls);
    History(CutOf(calls).closed)
  }

  // The window is what is left of the history once the evicted rows are dropped.
  lemma {:induction false} WindowRows(calls: seq<Call>)
    ensures |Rows(calls)| == |CutOf(calls).closed|
    ensures RunCalls(calls).window == Rows(calls)[Evicted(|Rows(calls)|)..]
  {
    WindowIsHistory(calls);
  }

  // One more call only appends to the history.
  lemma {:induction false} RowsGrow(calls: seq<Call>, c: Call)
    ensures Rows(calls) <= Rows(calls + [c])
  {
    var calls' := calls + [c];
    assert calls'[..|calls|] == calls;
    VerdictsStay(calls', |calls|);
  }

  // The number in the history of the i-th row of a pass.
  ghost function Index(pass: seq<Hit>, i: nat): nat
    requires i < |pass|
  {
    Evicted(pass[i].closed) + i
  }

  // A pass over the window while the history grew to `rows`.
  ghost predicate PassFits(pass: seq<Hit>, cursor: nat, rows: seq<SecondRow>) {
    && cursor == |pass| && cursor + Evicted(|rows|) <= |rows|
    && (forall i | 0 <= i < |pass| ::
          pass[i].closed <= |rows| && Index(pass, i) < |rows| && pass[i].row == rows[Index(pass, i)])
    && (forall i | 0 < i < |pass| :: pass[i - 1].closed <= pass[i].closed)
  }

  ghost predicate PassOk(d: Device) {
    PassFits(d.pass, d.cursor, Rows(d.calls))
  }

  lemma {:induction false} RowsKeepPass(pass: seq<Hit>, cursor: nat, rows: seq<SecondRow>, rows': seq<SecondRow>)
    requires PassFits(pass, cursor, rows) && rows <= rows'
    ensures PassFits(pass, cursor, rows')
  {
  }

  lemma {:induction false} ReadExtendsPass(pass: seq<Hit>, cursor: nat, rows: seq<SecondRow>)
    requires PassFits(pass, cursor, rows) && Evicted(|rows|) + cursor < |rows|
    ensures PassFits(pass + [Hit(|rows|, rows[Evicted(|rows|) + cursor])], cursor + 1, rows)
  {
    var pass' := pass + [Hit(|rows|, rows[Evicted(|rows|) + cursor])];
    assert forall i | 0 <= i < |pass| :: pass'[i] == pass[i] && Index(pass', i) == Index(pass, i);
  }

  lemma AddKeepsPass(d: Device, c: Call)
    requires PassOk(d)
    ensures PassOk(Step(d, Add(c)))
  {
    RowsGrow(d.calls, c);
    RowsKeepPass(d.pass, d.cursor, Rows(d.calls), Rows(d.calls + [c]));
  }

  // What a read does, in terms of the window.
  lemma {:induction false} ReadCases(d: Device, window: seq<SecondRow>)
    requires window == RunCalls(d.calls).window
    ensures Step(d, Read) == if d.cursor >= |window| then Device(d.calls, 0, [])
                             else Device(d.calls, d.cursor + 1,
                                         d.pass + [Hit(|CutOf(d.calls).closed|, window[d.cursor])])
  {
  }

  lemma {:induction false} TailAt(rows: seq<SecondRow>, from: nat, k: nat)
    requires from <= |rows|
    ensures |rows[from..]| == |rows| - from && (from + k < |rows| ==> rows[from..][k] == rows[from + k])
  {
  }

  // What a read does, in terms of the history.
  lemma {:induction false} ReadStep(d: Device, rows: seq<SecondRow>)
    requires rows == Rows(d.calls)
    ensures Step(d, Read) == if Evicted(|rows|) + d.cursor >= |rows| then Device(d.calls, 0, [])
                             else Device(d.calls, d.cursor + 1,
                                         d.pass + [Hit(|rows|, rows[Evicted(|rows|) + d.cursor])])
  {
    WindowRows(d.calls);
    TailAt(rows, Evicted(|rows|), d.cursor);
    ReadCases(d, rows[Evicted(|rows|)..]);
  }

  lemma {:induction false} ReadOnRows(d: Device, d': Device, rows: seq<SecondRow>)
    requires PassFits(d.pass, d.cursor, rows)
    requires d' == if Evicted(|rows|) + d.cursor >= |rows| then Device(d.calls, 0, [])
                   else Device(d.calls, d.cursor + 1, d.pass + [Hit(|rows|, rows[Evicted(|rows|) + d.cursor])])
    ensures PassFits(d'.pass, d'.cursor, rows)
  {
    if Evicted(|rows|) + d.cursor < |rows| {
      ReadExtendsPass(d.pass, d.cursor, rows);
    }
  }

  lemma ReadKeepsPass(d: Device)
    requires PassOk(d)
    ensures PassOk(Step(d, Read))
  {
    ReadStep(d, Rows(d.calls));
    ReadOnRows(d, Step(d, Read), Rows(d.calls));
  }

  lemma StepKeepsPass(d: Device, e: Event)
    requires PassOk(d)
    ensures PassOk(Step(d, e))
  {
    match e
    case Add(c) => AddKeepsPass(d, c);
    case Read => ReadKeepsPass(d);
  }

  lemma NothingRead()
    ensures PassOk(Device([], 0, []))
  {
  }

  lemma CursorInside(d: Device)
    requires PassOk(d)
    ensures d.cursor <= |RunCalls(d.calls).window|
  {
    WindowRows(d.calls);
  }

  lemma {:induction false} SessionPass(events: seq<Event>)
    ensures PassOk(Session(events))
  {
    if events == [] {
      NothingRead();
    } else {
      SessionPass(events[..|events| - 1]);
      StepKeepsPass(Session(events[..|events| - 1]), events[|events| - 1]);
    }
  }

  // In every session the cursor stays within the window, and the i-th row of a pass is the
  // row of the history whose number is i plus the rows evicted when it was read.
  lemma {:induction false} PassIsHistory(events: seq<Event>)
    ensures PassOk(Session(events)) && Session(events).cursor <= |RunCalls(Session(events).calls).window|
  {
    SessionPass(events);
    CursorInside(Session(events));
  }

  // The pass is a stretch of the history without gaps.
  ghost predicate Contiguous(pass: seq<Hit>, rows: seq<SecondRow>) {
    exists a: nat :: StretchFrom(pass, rows, a)
  }

  ghost predicate StretchFrom(pass: seq<Hit>, rows: seq<SecondRow>, a: nat) {
    a + |pass| <= |rows| && forall i | 0 <= i < |pass| :: pass[i].row == rows[a + i]
  }

  // Later rows carry later time stamps.
  ghost predicate Increasing(rows: seq<SecondRow>) {
    forall i, j | 0 <= i < j < |rows| :: rows[i].fromTime < rows[j].fromTime
  }

  lemma {:induction false} SpacedIncreasing(rows: seq<SecondRow>, i: nat, j: nat)
    requires SpacedRows(rows) && i < j < |rows|
    ensures rows[i].fromTime < rows[j].fromTime
    decreases j
  {
    if i < j - 1 {
      SpacedIncreasing(rows, i, j - 1);
    }
  }

  lemma {:induction false} RowsIncrease(calls: seq<Call>)
    requires Clocked(calls)
    ensures Increasing(Rows(calls))
  {
    CutSpaced(calls);
    CutNonEmpty(calls);
    HistorySpaced(CutOf(calls).closed);
    forall i, j | 0 <= i < j < |Rows(calls)| ensures Rows(calls)[i].fromTime < Rows(calls)[j].fromTime {
      SpacedIncreasing(Rows(calls), i, j);
    }
  }

  lemma {:induction false} ClosedGrows(pass: seq<Hit>, i: nat, j: nat)
    requires i <= j < |pass| && forall k | 0 < k < |pass| :: pass[k - 1].closed <= pass[k].closed
    ensures pass[i].closed <= pass[j].closed
    decreases j
  {
    if i < j {
      ClosedGrows(pass, i, j - 1);
    }
  }

  lemma {:induction false} StretchIff(pass: seq<Hit>, cursor: nat, rows: seq<SecondRow>)
    requires PassFits(pass, cursor, rows) && pass != [] && Increasing(rows)
    ensures Contiguous(pass, rows) <==> Evicted(pass[|pass| - 1].closed) == Evicted(pass[0].closed)
  {
    var last := |pass| - 1;
    if Evicted(pass[last].closed) == Evicted(pass[0].closed) {
      forall i | 0 <= i < |pass| ensures Index(pass, i) == Index(pass, 0) + i {
        ClosedGrows(pass, 0, i);
        ClosedGrows(pass, i, last);
      }
      assert Index(pass, last) < |rows|;
      assert StretchFrom(pass, rows, Index(pass, 0));
    }
    if a: nat :| StretchFrom(pass, rows, a) {
      assert rows[Index(pass, 0)] == rows[a + 0] && rows[Index(pass, last)] == rows[a + last];
    }
  }

  lemma EvictedMeans(first: nat, last: nat)
    requires first <= last
    ensures Evicted(last) == Evicted(first) <==> last <= SECOND_LAYER_TABLE_LENGTH || last == first
  {
  }

  // Without gaps means: no eviction between the first and the last read.
  lemma {:induction false} StretchClosed(pass: seq<Hit>, cursor: nat, rows: seq<SecondRow>)
    requires PassFits(pass, cursor, rows) && pass != [] && Increasing(rows)
    ensures var first, last := pass[0].closed, pass[|pass| - 1].closed;
            Contiguous(pass, rows) <==> last <= SECOND_LAYER_TABLE_LENGTH || last == first
  {
    ClosedGrows(pass, 0, |pass| - 1);
    StretchIff(pass, cursor, rows);
    EvictedMeans(pass[0].closed, pass[|pass| - 1].closed);
  }

  lemma {:induction false} StampsInOrder(pass: seq<Hit>, cursor: nat, rows: seq<SecondRow>, i: nat, j: nat)
    requires PassFits(pass, cursor, rows) && Increasing(rows) && i < j < |pass|
    ensures pass[i].row.fromTime < pass[j].row.fromTime
  {
    ClosedGrows(pass, i, j);
    assert Index(pass, i) < Index(pass, j);
  }

  // The rows of a pass carry increasing time stamps.
  ghost predicate InOrder(pass: seq<Hit>) {
    forall i, j | 0 <= i < j < |pass| :: pass[i].row.fromTime < pass[j].row.fromTime
  }

  lemma {:induction false} PassInOrder(pass: seq<Hit>, cursor: nat, rows: seq<SecondRow>)
    requires PassFits(pass, cursor, rows) && Increasing(rows)
    ensures InOrder(pass)
  {
    forall i, j | 0 <= i < j < |pass| ensures pass[i].row.fromTime < pass[j].row.fromTime {
      StampsInOrder(pass, cursor, rows, i, j);
    }
  }

  // Under one clock the rows of a pass come in the order of their time stamps, none twice,
  // and none is skipped if and only if no period is closed between the first and the last
  // read beyond the 512 that fit the window.
  lemma {:induction false} NoGapIff(events: seq<Event>)
    requires Session(events).pass != [] && Clocked(Session(events).calls)
    ensures var d := Session(events); var first, last := d.pass[0], d.pass[|d.pass| - 1];
            && InOrder(d.pass)
            && (Contiguous(d.pass, Rows(d.calls))
                <==> last.closed <= SECOND_LAYER_TABLE_LENGTH || last.closed == first.closed)
  {
    PassIsHistory(events);
    var d := Session(events);
    RowsIncrease(d.calls);
    PassInOrder(d.pass, d.cursor, Rows(d.calls));
    StretchClosed(d.pass, d.cursor, Rows(d.calls));
  }

  // Before the window has overflowed dumps cause neither gaps nor repetitions: the pass is
  // the history from its start.
  lemma {:induction false} NoGapBeforeOverflow(events: seq<Event>)
    requires |CutOf(Session(events).calls).closed| <= SECOND_LAYER_TABLE_LENGTH
    ensures StretchFrom(Session(events).pass, Rows(Session(events).calls), 0)
  {
    PassIsHistory(events);
    var d := Session(events);
    WindowRows(d.calls);
    FullPass(d.pass, d.cursor, Rows(d.calls));
  }

  lemma {:induction false} FullPass(pass: seq<Hit>, cursor: nat, rows: seq<SecondRow>)
    requires PassFits(pass, cursor, rows) && |rows| <= SECOND_LAYER_TABLE_LENGTH
    ensures StretchFrom(pass, rows, 0)
  {
    assert forall i | 0 <= i < |pass| :: Index(pass, i) == i;
  }

  // ---- A session that skips a row ----

  ghost function Adds(calls: seq<Call>): (events: seq<Event>) {
    if calls == [] then [] else Adds(calls[..|calls| - 1]) + [Add(calls[|calls| - 1])]
  }

  lemma {:induction false} SessionSnoc(events: seq<Event>, e: Event)
    ensures Session(events + [e]) == Step(Session(events), e)
  {
    assert (events + [e])[..|events|] == events;
  }

  lemma {:induction false} AddsSnoc(calls: seq<Call>, c: Call)
    ensures Adds(calls + [c]) == Adds(calls) + [Add(c)]
  {
    assert (calls + [c])[..|calls|] == calls;
  }

  // One more packet changes nothing but the trace.
  lemma {:induction false} AddsStep(calls: seq<Call>, c: Call)
    requires Session(Adds(calls)) == Device(calls, 0, [])
    ensures Session(Adds(calls + [c])) == Device(calls + [c], 0, [])
  {
    AddsSnoc(calls, c);
    SessionSnoc(Adds(calls), Add(c));
  }

  lemma {:induction false} AddsSession(calls: seq<Call>, n: nat)
    requires n <= |calls|
    ensures Session(Adds(calls[..n])) == Device(calls[..n], 0, [])
    decreases n
  {
    if n > 0 {
      AddsSession(calls, n - 1);
      assert calls[..n] == calls[..n - 1] + [calls[n - 1]];
      AddsStep(calls[..n - 1], calls[n - 1]);
    } else {
      assert calls[..0] == [];
    }
  }

  // A read, a packet and another read, after packets only.
  ghost function Sandwich(calls: seq<Call>, c: Call): seq<Event> {
    Adds(calls) + [Read] + [Add(c)] + [Read]
  }

  lemma {:induction false} SandwichSession(calls: seq<Call>, c: Call)
    ensures var first := Step(Device(calls, 0, []), Read);
            Session(Sandwich(calls, c)) == Step(first.(calls := first.calls + [c]), Read)
  {
    var e0 := Adds(calls);
    AddsSession(calls, |calls|);
    assert calls[..|calls|] == calls;
    SessionSnoc(e0, Read);
    SessionSnoc(e0 + [Read], Add(c));
    SessionSnoc(e0 + [Read] + [Add(c)], Read);
  }

  lemma {:induction false} FirstRead(calls: seq<Call>)
    requires |CutOf(calls).closed| == SECOND_LAYER_TABLE_LENGTH
    ensures |Rows(calls)| == SECOND_LAYER_TABLE_LENGTH
    ensures Step(Device(calls, 0, []), Read)
            == Device(calls, 1, [Hit(SECOND_LAYER_TABLE_LENGTH, Rows(calls)[0])])
  {
    WindowRows(calls);
    ReadStep(Device(calls, 0, []), Rows(calls));
    assert [] + [Hit(SECOND_LAYER_TABLE_LENGTH, Rows(calls)[0])] == [Hit(SECOND_LAYER_TABLE_LENGTH, Rows(calls)[0])];
  }

  lemma {:induction false} SecondRead(calls: seq<Call>, hit: Hit)
    requires |CutOf(calls).closed| == SECOND_LAYER_TABLE_LENGTH + 1
    ensures |Rows(calls)| == SECOND_LAYER_TABLE_LENGTH + 1
    ensures Step(Device(calls, 1, [hit]), Read)
            == Device(calls, 2, [hit, Hit(SECOND_LAYER_TABLE_LENGTH + 1, Rows(calls)[2])])
  {
    WindowRows(calls);
    ReadStep(Device(calls, 1, [hit]), Rows(calls));
  }

  // A full window, a read, one more dump, and another read.
  lemma {:induction false} FullWindow(calls: seq<Call>, c: Call)
    requires |CutOf(calls).closed| == SECOND_LAYER_TABLE_LENGTH
    requires |CutOf(calls + [c]).closed| == SECOND_LAYER_TABLE_LENGTH + 1
    ensures var d := Session(Sandwich(calls, c));
            d.calls == calls + [c] && |d.pass| == 2
            && d.pass[0].closed == SECOND_LAYER_TABLE_LENGTH && d.pass[1].closed == SECOND_LAYER_TABLE_LENGTH + 1
  {
    SandwichSession(calls, c);
    FirstRead(calls);
    SecondRead(calls + [c], Hit(SECOND_LAYER_TABLE_LENGTH, Rows(calls)[0]));
  }

  // Its pass skips a row.
  lemma {:induction false} Skip(calls: seq<Call>, c: Call) returns (events: seq<Event>)
    requires Clocked(calls + [c])
    requires |CutOf(calls).closed| == SECOND_LAYER_TABLE_LENGTH
    requires |CutOf(calls + [c]).closed| == SECOND_LAYER_TABLE_LENGTH + 1
    ensures Session(events).calls == calls + [c] && |Session(events).pass| == 2
    ensures !Contiguous(Session(events).pass, Rows(calls + [c]))
  {
    events := Sandwich(calls, c);
    FullWindow(calls, c);
    NoGapIff(events);
  }

  // The call that closes the period number |pss|.
  lemma {:induction false} NextCall(pss: seq<seq<Packet>>) returns (c: Call)
    requires Busy(pss) && pss != [] && |pss| < MOST_PERIODS && Hooked(pss)
    ensures Clocked(Trace(pss) + [c]) && AllFromHook(Trace(pss) + [c])
    ensures |CutOf(Trace(pss)).closed| == |pss| - 1 && |CutOf(Trace(pss) + [c]).closed| == |pss|
  {
    var t, pss' := Time(|pss| + 1), pss + [[LARGE]];
    c := Call(LARGE, t, t, t);
    TraceSnoc(pss, LARGE);
    TraceCut(pss);
    TraceCut(pss');
    TraceClocked(pss');
    TraceFromHook(pss');
  }

  lemma GapSession() returns (events: seq<Event>)
    ensures Clocked(Session(events).calls) && AllFromHook(Session(events).calls)
    ensures !Contiguous(Session(events).pass, Rows(Session(events).calls))
  {
    var pss := seq(SECOND_LAYER_TABLE_LENGTH + 1, _ => [LARGE]);
    var c := NextCall(pss);
    events := Skip(Trace(pss), c);
  }
}
