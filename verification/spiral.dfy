// sem_05/lab_02/p_2.c: filling a square matrix in a clockwise spiral, ring by ring.
module Spiral {

  // ---- Closed form of one ring ----

  ghost predicate OnRing(n: int, k: int, i: int, j: int) {
    k <= i < n - k && k <= j < n - k && (i == k || i == n - 1 - k || j == k || j == n - 1 - k)
  }

  ghost function RingSize(n: int, k: int): int {
    if n - 2 * k >= 2 then 4 * (n - 1 - 2 * k) else if n - 2 * k == 1 then 1 else 0
  }

  // Position of a cell along its ring, from 1: top, right, bottom, left side.
  ghost function Offset(n: int, k: int, i: int, j: int): int {
    var m := n - 1 - 2 * k;
    if i == k then 1 + (j - k)
    else if j == n - 1 - k then 1 + m + (i - k)
    else if i == n - 1 - k then 1 + 2 * m + (n - 1 - k - j)
    else 1 + 3 * m + (n - 1 - k - i)
  }

  // The cell at a position of a ring.
  ghost function CellAt(n: int, k: int, o: int): (int, int) {
    var m := n - 1 - 2 * k;
    if o <= m + 1 then (k, k + o - 1)
    else if o <= 2 * m + 1 then (k + o - 1 - m, n - 1 - k)
    else if o <= 3 * m + 1 then (n - 1 - k, n - 1 - k - (o - 1 - 2 * m))
    else (n - 1 - k - (o - 1 - 3 * m), k)
  }

  lemma OffsetCellAt(n: int, k: int, i: int, j: int, o: int)
    requires 0 <= k
    ensures OnRing(n, k, i, j) ==>
              1 <= Offset(n, k, i, j) <= RingSize(n, k) && CellAt(n, k, Offset(n, k, i, j)) == (i, j)
    ensures 1 <= o <= RingSize(n, k) ==>
              OnRing(n, k, CellAt(n, k, o).0, CellAt(n, k, o).1)
              && Offset(n, k, CellAt(n, k, o).0, CellAt(n, k, o).1) == o
  {
  }

  // ---- Closed form of the whole matrix ----

  ghost function Min(a: int, b: int): int { if a < b then a else b }

  ghost function RingOf(n: int, i: int, j: int): int { Min(Min(i, j), Min(n - 1 - i, n - 1 - j)) }

  // The number of cells in the rings before ring k.
  ghost function Before(n: int, k: int): int {
    if k <= 0 then 0 else Before(n, k - 1) + RingSize(n, k - 1)
  }

  ghost function Value(n: int, i: int, j: int): int {
    var k := RingOf(n, i, j);
    Before(n, k) + Offset(n, k, i, j)
  }

  ghost function Cells(n: int): int { Before(n, (n + 1) / 2) }

  // Ring k starts at 4k(n-k)+1.
  lemma {:induction false} RingStart(n: int, k: int)
    requires 0 <= k && 2 * k <= n
    ensures Before(n, k) == 4 * (k * (n - k))
  {
    if k > 0 {
      RingStart(n, k - 1);
      assert k * (n - k) == (k - 1) * (n - (k - 1)) + n - 2 * (k - 1) - 1;
    }
  }

  // All rings together are the whole matrix.
  lemma CellsSquare(n: int)
    requires 0 <= n
    ensures Cells(n) == n * n
  {
    var k := n / 2;
    RingStart(n, k);
    if n == 2 * k {
      assert 4 * (k * k) == (2 * k) * (2 * k);
    } else {
      assert 4 * (k * (k + 1)) + 1 == (2 * k + 1) * (2 * k + 1);
    }
  }

  // ---- The imperative fill ----

  // The four loops of fill_one_circle, one side each; `last` is the number written last.

  method FillTop(lastNum: int, circle: nat, r: nat, c: nat, matrix: array2<int>) returns (last: int)
    requires r == c <= matrix.Length0 && c <= matrix.Length1 && 2 * circle <= c
    modifies matrix
    ensures last == lastNum + (c - 2 * circle)
    ensures forall x, y | 0 <= x < matrix.Length0 && 0 <= y < matrix.Length1 ::
              matrix[x, y] == if x == circle && circle <= y < c - circle then lastNum + 1 + (y - circle)
                              else old(matrix[x, y])
  {
    last := lastNum;
    var j: nat := circle;
    while j < c - circle
      invariant circle <= j <= c - circle && last == lastNum + (j - circle)
      invariant forall x, y | 0 <= x < matrix.Length0 && 0 <= y < matrix.Length1 ::
                  matrix[x, y] == if x == circle && circle <= y < j then lastNum + 1 + (y - circle)
                                  else old(matrix[x, y])
    {
      last := last + 1;
      matrix[circle, j] := last;
      j := j + 1;
    }
  }

  method FillRight(lastNum: int, circle: nat, r: nat, c: nat, matrix: array2<int>) returns (last: int)
    requires r == c <= matrix.Length0 && c <= matrix.Length1 && 2 * circle <= c
    modifies matrix
    ensures last == lastNum + if 2 * circle < c then r - 2 * circle - 1 else 0
    ensures forall x, y | 0 <= x < matrix.Length0 && 0 <= y < matrix.Length1 ::
              matrix[x, y] == if y == c - circle - 1 && circle < x < r - circle then lastNum + (x - circle)
                              else old(matrix[x, y])
  {
    last := lastNum;
    var i: nat := circle + 1;
    while i < r - circle
      invariant circle + 1 <= i && (i <= r - circle || i == circle + 1) && last == lastNum + (i - circle - 1)
      invariant forall x, y | 0 <= x < matrix.Length0 && 0 <= y < matrix.Length1 ::
                  matrix[x, y] == if y == c - circle - 1 && circle < x < i then lastNum + (x - circle)
                                  else old(matrix[x, y])
    {
      last := last + 1;
      matrix[i, c - circle - 1] := last;
      i := i + 1;
    }
  }

  // `c - circle - 1` is assigned to a natural number: the subtraction never goes below zero.
  method FillBottom(lastNum: int, circle: nat, r: nat, c: nat, matrix: array2<int>) returns (last: int)
    requires 1 <= r == c <= matrix.Length0 && c <= matrix.Length1 && 2 * circle <= c
    modifies matrix
    ensures last == lastNum + if 2 * circle < c then c - 2 * circle - 1 else 0
    ensures forall x, y | 0 <= x < matrix.Length0 && 0 <= y < matrix.Length1 ::
              matrix[x, y] == if x == c - circle - 1 && circle <= y < c - circle - 1
                              then lastNum + (c - circle - 1 - y) else old(matrix[x, y])
  {
    last := lastNum;
    var start: nat := c - circle - 1;
    var j: nat := start;
    while j > circle
      invariant j <= start && (circle <= j || j == start) && last == lastNum + (start - j)
      invariant forall x, y | 0 <= x < matrix.Length0 && 0 <= y < matrix.Length1 ::
                  matrix[x, y] == if x == c - circle - 1 && j <= y < start
                                  then lastNum + (start - y) else old(matrix[x, y])
    {
      last := last + 1;
      matrix[c - circle - 1, j - 1] := last;
      j := j - 1;
    }
  }

  method FillLeft(lastNum: int, circle: nat, r: nat, c: nat, matrix: array2<int>) returns (last: int)
    requires 1 <= r == c <= matrix.Length0 && c <= matrix.Length1 && 2 * circle <= c
    modifies matrix
    ensures last == lastNum + if 2 * circle + 1 < c then r - 2 * circle - 2 else 0
    ensures forall x, y | 0 <= x < matrix.Length0 && 0 <= y < matrix.Length1 ::
              matrix[x, y] == if y == circle && circle < x < r - circle - 1
                              then lastNum + (r - circle - 1 - x) else old(matrix[x, y])
  {
    last := lastNum;
    var start: nat := r - circle - 1;
    var i: nat := start;
    while i > circle + 1
      invariant i <= start && (circle + 1 <= i || i == start) && last == lastNum + (start - i)
      invariant forall x, y | 0 <= x < matrix.Length0 && 0 <= y < matrix.Length1 ::
                  matrix[x, y] == if y == circle && i <= x < start
                                  then lastNum + (start - x) else old(matrix[x, y])
    {
      last := last + 1;
      matrix[i - 1, circle] := last;
      i := i - 1;
    }
  }

  // Exactly the cells of one ring are written, with consecutive numbers along the ring.
  method FillOneCircle(lastNum: int, circle: nat, r: nat, c: nat, matrix: array2<int>) returns (last: int)
    requires 1 <= r == c <= matrix.Length0 && c <= matrix.Length1 && circle <= r / 2
    modifies matrix
    ensures last == lastNum + RingSize(r, circle)
    ensures forall i, j | 0 <= i < matrix.Length0 && 0 <= j < matrix.Length1 ::
              matrix[i, j] == if OnRing(r, circle, i, j) then lastNum + Offset(r, circle, i, j) else old(matrix[i, j])
  {
    last := FillTop(lastNum, circle, r, c, matrix);
    last := FillRight(last, circle, r, c, matrix);
    last := FillBottom(last, circle, r, c, matrix);
    last := FillLeft(last, circle, r, c, matrix);
  }

  method Fill(r: nat, c: nat, matrix: array2<int>)
    requires 1 <= r == c <= matrix.Length0 && c <= matrix.Length1
    modifies matrix
    ensures forall i, j | 0 <= i < matrix.Length0 && 0 <= j < matrix.Length1 ::
              matrix[i, j] == if i < r && j < r then Value(r, i, j) else old(matrix[i, j])
  {
    var last := 0;
    var k: nat := 0;
    while k <= r / 2
      invariant k <= r / 2 + 1
      invariant last == Before(r, k)
      invariant forall i, j | 0 <= i < matrix.Length0 && 0 <= j < matrix.Length1 ::
                  matrix[i, j] == if i < r && j < r && RingOf(r, i, j) < k then Value(r, i, j) else old(matrix[i, j])
    {
      last := FillOneCircle(last, k, r, c, matrix);
      k := k + 1;
    }
  }

  // ---- Each of 1..n*n occurs exactly once ----

  // The numbers before ring k grow ring by ring.
  lemma {:induction false} BeforeGrows(n: int, k: int, k': int)
    requires 0 <= k < k'
    ensures Before(n, k) + RingSize(n, k) <= Before(n, k')
    decreases k' - k
  {
    if k + 1 < k' {
      BeforeGrows(n, k + 1, k');
    }
  }

  lemma RingRange(n: int, k: int)
    requires 0 <= k && 2 * k < n
    ensures 0 <= Before(n, k) && Before(n, k) + RingSize(n, k) <= Cells(n)
  {
    if k > 0 {
      BeforeGrows(n, 0, k);
    }
    BeforeGrows(n, k, (n + 1) / 2);
  }

  ghost function FindRing(n: int, v: int, k: int): (r: int)
    requires 0 <= k && 2 * k < n && Before(n, k) < v <= Cells(n)
    ensures k <= r && 2 * r < n && Before(n, r) < v <= Before(n, r) + RingSize(n, r)
    decreases n - 2 * k
  {
    if v <= Before(n, k) + RingSize(n, k) || 2 * (k + 1) >= n then k else FindRing(n, v, k + 1)
  }

  // The cell that holds a number.
  ghost function CellOf(n: int, v: int): (int, int)
    requires 1 <= v <= Cells(n) && 1 <= n
  {
    var k := FindRing(n, v, 0);
    CellAt(n, k, v - Before(n, k))
  }

  // A number determines its ring and position.
  lemma RingUnique(n: int, k: int, k': int, o: int, o': int)
    requires 0 <= k && 2 * k < n && 0 <= k' && 2 * k' < n
    requires 1 <= o <= RingSize(n, k) && 1 <= o' <= RingSize(n, k') && Before(n, k) + o == Before(n, k') + o'
    ensures k == k' && o == o'
  {
    if k < k' {
      BeforeGrows(n, k, k');
    } else if k' < k {
      BeforeGrows(n, k', k);
    }
  }

  lemma CellOfRing(n: int, v: int, k: int, o: int)
    requires 0 <= k && 2 * k < n && 1 <= o <= RingSize(n, k) && v == Before(n, k) + o
    ensures 1 <= v <= Cells(n) && CellOf(n, v) == CellAt(n, k, o)
  {
    RingRange(n, k);
    var k' := FindRing(n, v, 0);
    var o' := v - Before(n, k');
    RingUnique(n, k, k', o, o');
    assert CellOf(n, v) == CellAt(n, k', o');
  }

  lemma RingOfRing(n: int, k: int, i: int, j: int)
    requires 0 <= k && OnRing(n, k, i, j)
    ensures RingOf(n, i, j) == k
  {
  }

  lemma CellToValue(n: int, i: int, j: int)
    requires 1 <= n && 0 <= i < n && 0 <= j < n
    ensures 1 <= Value(n, i, j) <= Cells(n) && CellOf(n, Value(n, i, j)) == (i, j)
  {
    var k := RingOf(n, i, j);
    assert OnRing(n, k, i, j);
    OffsetCellAt(n, k, i, j, 0);
    CellOfRing(n, Value(n, i, j), k, Offset(n, k, i, j));
  }

  lemma ValueToCell(n: int, v: int)
    requires 1 <= n && 1 <= v <= Cells(n)
    ensures var cell := CellOf(n, v);
            0 <= cell.0 < n && 0 <= cell.1 < n && Value(n, cell.0, cell.1) == v
  {
    var k := FindRing(n, v, 0);
    var cell := CellOf(n, v);
    OffsetCellAt(n, k, 0, 0, v - Before(n, k));
    RingOfRing(n, k, cell.0, cell.1);
  }

  // Value and CellOf are inverse to each other: the filled matrix holds every number of
  // 1..n*n in exactly one cell.
  lemma FillIsBijection(n: int, i: int, j: int, v: int)
    requires 1 <= n
    ensures 0 <= i < n && 0 <= j < n ==> 1 <= Value(n, i, j) <= Cells(n) && CellOf(n, Value(n, i, j)) == (i, j)
    ensures 1 <= v <= Cells(n) ==>
              var cell := CellOf(n, v);
              0 <= cell.0 < n && 0 <= cell.1 < n && Value(n, cell.0, cell.1) == v
  {
    if 0 <= i < n && 0 <= j < n {
      CellToValue(n, i, j);
    }
    if 1 <= v <= Cells(n) {
      ValueToCell(n, v);
    }
  }

  ghost predicate InGrid(n: int, cell: (int, int)) { 0 <= cell.0 < n && 0 <= cell.1 < n }

  ghost predicate Holds(n: int, cell: (int, int), v: int) { InGrid(n, cell) && Value(n, cell.0, cell.1) == v }

  // The filled matrix holds exactly the numbers 1..n*n, each in exactly one cell.
  lemma EachNumberOnce(n: int, v: int)
    requires 1 <= n
    ensures (exists cell :: Holds(n, cell, v)) <==> 1 <= v <= n * n
    ensures forall cell, cell' :: Holds(n, cell, v) && Holds(n, cell', v) ==> cell == cell'
  {
    CellsSquare(n);
    if 1 <= v <= n * n {
      FillIsBijection(n, 0, 0, v);
      assert Holds(n, CellOf(n, v), v);
    }
    forall cell | Holds(n, cell, v) ensures 1 <= v <= Cells(n) && cell == CellOf(n, v) {
      FillIsBijection(n, cell.0, cell.1, 0);
    }
  }

  // ---- The spiral is the walk that turns right when it has to ----

  datatype Heading = East | South | West | North

  datatype Walker = Walker(row: int, col: int, heading: Heading, visited: set<(int, int)>)

  ghost function Ahead(cell: (int, int), h: Heading): (int, int) {
    match h
    case East => (cell.0, cell.1 + 1)
    case South => (cell.0 + 1, cell.1)
    case West => (cell.0, cell.1 - 1)
    case North => (cell.0 - 1, cell.1)
  }

  ghost function TurnRight(h: Heading): Heading {
    match h
    case East => South
    case South => West
    case West => North
    case North => East
  }

  // It goes straight on while the cell ahead is free, and otherwise turns right once.
  ghost function Move(n: int, w: Walker): Walker {
    var ahead := Ahead((w.row, w.col), w.heading);
    var h := if InGrid(n, ahead) && ahead !in w.visited then w.heading else TurnRight(w.heading);
    var next := Ahead((w.row, w.col), h);
    Walker(next.0, next.1, h, w.visited + {next})
  }

  // The walker after placing the numbers 1..v, starting in the top left corner heading east.
  ghost function Walk(n: int, v: nat): Walker
    requires v >= 1
  {
    if v == 1 then Walker(0, 0, East, {(0, 0)}) else Move(n, Walk(n, v - 1))
  }

  // The heading with which position o of ring k is reached.
  ghost function HeadingAt(n: int, k: int, o: int): Heading {
    var m := n - 1 - 2 * k;
    if o <= m + 1 then East else if o <= 2 * m + 1 then South else if o <= 3 * m + 1 then West else North
  }

  // Where the walk goes from position o of ring k.
  lemma NextOnRing(n: int, k: int, o: int)
    requires 0 <= k && 1 <= o < RingSize(n, k)
    ensures var h, cell := HeadingAt(n, k, o), CellAt(n, k, o);
            var ahead, next := Ahead(cell, h), CellAt(n, k, o + 1);
            if HeadingAt(n, k, o + 1) == h then next == ahead
            else HeadingAt(n, k, o + 1) == TurnRight(h) && next == Ahead(cell, TurnRight(h))
                 && !OnRing(n, k, ahead.0, ahead.1) && (k == 0 ==> !InGrid(n, ahead))
                 && (k > 0 ==> OnRing(n, k - 1, ahead.0, ahead.1))
  {
  }

  // From the last position of a ring the cell ahead is the first of that ring; the walk turns inwards.
  lemma NextRing(n: int, k: int)
    requires 0 <= k && n - 2 * k >= 3
    ensures var o := RingSize(n, k);
            && HeadingAt(n, k, o) == North && Ahead(CellAt(n, k, o), North) == CellAt(n, k, 1)
            && Ahead(CellAt(n, k, o), East) == CellAt(n, k + 1, 1) && HeadingAt(n, k + 1, 1) == East
  {
  }

  // The cell is in the matrix and holds one of 1..v.
  ghost predicate HoldsUpTo(n: int, cell: (int, int), v: int) {
    InGrid(n, cell) && Value(n, cell.0, cell.1) <= v
  }

  ghost predicate VisitedUpTo(n: int, visited: set<(int, int)>, v: int) {
    forall cell: (int, int) :: cell in visited <==> HoldsUpTo(n, cell, v)
  }

  lemma ValueOnRing(n: int, k: int, cell: (int, int))
    requires 0 <= k && OnRing(n, k, cell.0, cell.1)
    ensures InGrid(n, cell) && Value(n, cell.0, cell.1) == Before(n, k) + Offset(n, k, cell.0, cell.1)
  {
    RingOfRing(n, k, cell.0, cell.1);
  }

  // One more number is held by exactly one more cell.
  lemma HoldsNext(n: int, cell: (int, int), v: int)
    requires 1 <= n && 1 <= v <= Cells(n)
    ensures HoldsUpTo(n, cell, v) <==> HoldsUpTo(n, cell, v - 1) || cell == CellOf(n, v)
  {
    FillIsBijection(n, cell.0, cell.1, v);
  }

  // Walker w has placed 1..v and stands on v, which is position o of ring k.
  ghost predicate At(n: int, w: Walker, v: int, k: int, o: int) {
    && 0 <= k && 2 * k < n && 1 <= o <= RingSize(n, k) && v == Before(n, k) + o
    && (w.row, w.col) == CellAt(n, k, o) && w.heading == HeadingAt(n, k, o)
    && VisitedUpTo(n, w.visited, v)
  }

  lemma Visit(n: int, visited: set<(int, int)>, v: int)
    requires 1 <= n && 1 <= v <= Cells(n) && VisitedUpTo(n, visited, v - 1)
    ensures VisitedUpTo(n, visited + {CellOf(n, v)}, v)
  {
    var cell := CellOf(n, v);
    forall other: (int, int) ensures other in visited + {cell} <==> HoldsUpTo(n, other, v) {
      HoldsNext(n, other, v);
    }
  }

  lemma NothingBelowOne(n: int)
    requires 1 <= n
    ensures VisitedUpTo(n, {}, 0)
  {
    forall cell: (int, int) ensures !HoldsUpTo(n, cell, 0) {
      FillIsBijection(n, cell.0, cell.1, 0);
    }
  }

  lemma FirstCell(n: int)
    requires 1 <= n
    ensures At(n, Walk(n, 1), 1, 0, 1)
  {
    CellOfRing(n, 1, 0, 1);
    NothingBelowOne(n);
    Visit(n, {}, 1);
    assert {} + {CellOf(n, 1)} == {(0, 0)};
  }

  // The next cell along a ring holds the next number, an earlier ring only smaller ones.
  lemma FreeOnRing(n: int, k: int, o: int, v: int)
    requires 0 <= k && 1 <= o < RingSize(n, k) && v == Before(n, k) + o
    ensures !HoldsUpTo(n, CellAt(n, k, o + 1), v) && InGrid(n, CellAt(n, k, o + 1))
  {
    OffsetCellAt(n, k, 0, 0, o + 1);
    ValueOnRing(n, k, CellAt(n, k, o + 1));
  }

  lemma TakenOutside(n: int, k: int, cell: (int, int), v: int)
    requires 0 < k && OnRing(n, k - 1, cell.0, cell.1) && v >= Before(n, k)
    ensures HoldsUpTo(n, cell, v)
  {
    ValueOnRing(n, k - 1, cell);
    OffsetCellAt(n, k - 1, cell.0, cell.1, 0);
  }

  // Whether the cell ahead is free decides whether the walker is at a corner of the ring.
  lemma AheadFree(n: int, visited: set<(int, int)>, v: int, k: int, o: int)
    requires 0 <= k && 1 <= o < RingSize(n, k) && v == Before(n, k) + o && VisitedUpTo(n, visited, v)
    ensures var ahead := Ahead(CellAt(n, k, o), HeadingAt(n, k, o));
            (InGrid(n, ahead) && ahead !in visited) <==> HeadingAt(n, k, o + 1) == HeadingAt(n, k, o)
  {
    NextOnRing(n, k, o);
    if HeadingAt(n, k, o + 1) == HeadingAt(n, k, o) {
      FreeOnRing(n, k, o, v);
    } else if k > 0 {
      TakenOutside(n, k, Ahead(CellAt(n, k, o), HeadingAt(n, k, o)), v);
    }
  }

  lemma StepPosition(n: int, w: Walker, v: int, k: int, o: int)
    requires At(n, w, v, k, o) && o < RingSize(n, k)
    ensures (Move(n, w).row, Move(n, w).col) == CellAt(n, k, o + 1)
    ensures Move(n, w).heading == HeadingAt(n, k, o + 1)
  {
    AheadFree(n, w.visited, v, k, o);
    NextOnRing(n, k, o);
  }

  lemma StepOnRing(n: int, w: Walker, v: int, k: int, o: int)
    requires At(n, w, v - 1, k, o - 1) && o <= RingSize(n, k)
    ensures At(n, Move(n, w), v, k, o)
  {
    StepPosition(n, w, v - 1, k, o - 1);
    CellOfRing(n, v, k, o);
    Visit(n, w.visited, v);
  }

  lemma StepInwards(n: int, w: Walker, v: int, k: int)
    requires k >= 1 && 2 * k < n && At(n, w, v - 1, k - 1, RingSize(n, k - 1))
    ensures At(n, Move(n, w), v, k, 1)
  {
    NextRing(n, k - 1);
    OffsetCellAt(n, k - 1, 0, 0, 1);
    ValueOnRing(n, k - 1, CellAt(n, k - 1, 1));
    CellOfRing(n, v, k, 1);
    Visit(n, w.visited, v);
  }

  lemma {:induction false} WalkOnRings(n: int, v: nat, k: int, o: int)
    requires 0 <= k && 2 * k < n && 1 <= o <= RingSize(n, k) && v == Before(n, k) + o && v >= 1
    ensures At(n, Walk(n, v), v, k, o)
    decreases v
  {
    if v == 1 {
      RingUnique(n, k, 0, o, 1);
      FirstCell(n);
    } else if o > 1 {
      WalkOnRings(n, v - 1, k, o - 1);
      StepOnRing(n, Walk(n, v - 1), v, k, o);
    } else {
      WalkOnRings(n, v - 1, k - 1, RingSize(n, k - 1));
      StepInwards(n, Walk(n, v - 1), v, k);
    }
  }

  ghost predicate Adjacent(a: (int, int), b: (int, int)) {
    (a.0 == b.0 && (a.1 == b.1 + 1 || b.1 == a.1 + 1)) || (a.1 == b.1 && (a.0 == b.0 + 1 || b.0 == a.0 + 1))
  }

  lemma MoveAdjacent(n: int, w: Walker)
    ensures Adjacent((w.row, w.col), (Move(n, w).row, Move(n, w).col))
  {
  }

  lemma WalkStep(n: int, v: nat)
    requires v > 1
    ensures Walk(n, v) == Move(n, Walk(n, v - 1))
  {
  }

  lemma {:induction false} WalkAtCell(n: int, v: nat)
    requires 1 <= n && 1 <= v <= Cells(n)
    ensures var w, cell := Walk(n, v), CellOf(n, v);
            (w.row, w.col) == cell && Value(n, w.row, w.col) == v && VisitedUpTo(n, w.visited, v)
  {
    var k := FindRing(n, v, 0);
    var o := v - Before(n, k);
    WalkOnRings(n, v, k, o);
    CellOfRing(n, v, k, o);
    OffsetCellAt(n, k, 0, 0, o);
    ValueOnRing(n, k, CellAt(n, k, o));
  }

  lemma {:induction false} NextAdjacent(n: int, v: nat)
    requires 1 <= n && 1 < v <= Cells(n)
    ensures Adjacent(CellOf(n, v - 1), CellOf(n, v))
  {
    WalkAtCell(n, v - 1);
    WalkAtCell(n, v);
    WalkStep(n, v);
    MoveAdjacent(n, Walk(n, v - 1));
  }

  // Fill puts the number v where the clockwise walk is after v cells, so consecutive
  // numbers are in neighbouring cells.
  lemma {:induction false} FillIsWalk(n: int, v: nat)
    requires 1 <= n && 1 <= v <= Cells(n)
    ensures var w, cell := Walk(n, v), CellOf(n, v);
            (w.row, w.col) == cell && Value(n, w.row, w.col) == v && VisitedUpTo(n, w.visited, v)
    ensures v > 1 ==> Adjacent(CellOf(n, v - 1), CellOf(n, v))
  {
    WalkAtCell(n, v);
    if v > 1 {
      NextAdjacent(n, v);
    }
  }
}
