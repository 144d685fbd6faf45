// sem_06/lab_03/p_1/main.c: exchanging the upper and the lower triangle of a square matrix in place.
module TriangleSwap {

  // The cells of the upper triangle: between the two diagonals, above the middle row.
  ghost predicate Upper(n: int, i: int, j: int) { 0 <= i < n / 2 && i <= j <= n - 1 - i }

  // Where the entry of a cell comes from.
  ghost function Partner(n: int, cell: (int, int)): (int, int) {
    var (i, j) := cell;
    if Upper(n, i, j) || Upper(n, n - 1 - i, j) then (n - 1 - i, j) else cell
  }

  ghost function Grid(n: nat): set<(int, int)> {
    set i, j | 0 <= i < n && 0 <= j < n :: (i, j)
  }

  // The entries of the n x n corner of a matrix.
  ghost function Entries(n: nat, matrix: array2<int>): (m: map<(int, int), int>)
    requires n <= matrix.Length0 && n <= matrix.Length1
    reads matrix
    ensures m.Keys == Grid(n)
  {
    map cell | cell in Grid(n) :: matrix[cell.0, cell.1]
  }

  // The entries after the exchange.
  ghost function Swapped(n: nat, m: map<(int, int), int>): (m': map<(int, int), int>)
    requires m.Keys == Grid(n)
    ensures m'.Keys == Grid(n)
  {
    map cell | cell in Grid(n) :: m[Partner(n, cell)]
  }

  lemma SwappedCells(n: nat, m: map<(int, int), int>, m': map<(int, int), int>)
    requires m.Keys == m'.Keys == Grid(n)
    requires forall x, y | 0 <= x < n && 0 <= y < n :: m'[(x, y)] == m[Partner(n, (x, y))]
    ensures m' == Swapped(n, m)
  {
  }

  method Swap(matrix: array2<int>, i: nat, j: nat, i': nat, j': nat)
    requires i < matrix.Length0 && i' < matrix.Length0 && j < matrix.Length1 && j' < matrix.Length1
    modifies matrix
    ensures matrix[i, j] == old(matrix[i', j']) && matrix[i', j'] == old(matrix[i, j])
    ensures forall x, y | 0 <= x < matrix.Length0 && 0 <= y < matrix.Length1 && (x, y) != (i, j)
                          && (x, y) != (i', j') ::
              matrix[x, y] == old(matrix[x, y])
  {
    var t := matrix[i, j];
    matrix[i, j] := matrix[i', j'];
    matrix[i', j'] := t;
  }

  // The rows for which the exchange is complete before row i: those above it and their mirror images.
  ghost predicate Done(n: nat, i: nat, x: int) { x < i || n - 1 - x < i }

  // r - 1 and r - i - 1 are natural numbers here, so the unsigned subtractions never wrap.
  method SwapRow(r: nat, c: nat, i: nat, matrix: array2<int>)
    requires 1 <= r == c <= matrix.Length0 && c <= matrix.Length1 && i < r / 2
    modifies matrix
    ensures forall x, y | 0 <= x < matrix.Length0 && 0 <= y < matrix.Length1 ::
              matrix[x, y] == if (x == i || x == r - 1 - i) && i <= y <= r - 1 - i then old(matrix[r - 1 - x, y])
                              else old(matrix[x, y])
  {
    var j: nat := 0;
    while j < c
      invariant j <= c
      invariant forall x, y | 0 <= x < matrix.Length0 && 0 <= y < matrix.Length1 ::
                  matrix[x, y] == if (x == i || x == r - 1 - i) && Upper(r, i, y) && y < j
                                  then old(matrix[r - 1 - x, y]) else old(matrix[x, y])
    {
      var last: nat := r - 1;
      if i <= j && i + j <= last {
        var mirror: nat := r - i - 1;
        Swap(matrix, i, j, mirror, j);
      }
      j := j + 1;
    }
  }

  // The two triangles: the cells that lie no further from the middle column than from the middle row.
  ghost predicate InTriangles(n: int, x: int, y: int) {
    Distance(2 * y, n - 1) <= Distance(2 * x, n - 1)
  }

  ghost function Distance(a: int, b: int): nat { if a < b then b - a else a - b }

  lemma PartnerGeometry(n: nat, x: int, y: int)
    requires 0 <= x < n && 0 <= y < n
    ensures Partner(n, (x, y)) == if InTriangles(n, x, y) then (n - 1 - x, y) else (x, y)
  {
  }

  method SwapUpperLowerTriangle(r: nat, c: nat, matrix: array2<int>)
    requires 1 <= r == c <= matrix.Length0 && c <= matrix.Length1
    modifies matrix
    ensures Entries(r, matrix) == Swapped(r, old(Entries(r, matrix)))
    ensures forall x, y | 0 <= x < matrix.Length0 && 0 <= y < matrix.Length1 ::
              matrix[x, y] == if x < r && y < r && InTriangles(r, x, y) then old(matrix[r - 1 - x, y])
                              else old(matrix[x, y])
  {
    var i: nat := 0;
    while i < r / 2
      invariant i <= r / 2
      invariant forall x, y | 0 <= x < matrix.Length0 && 0 <= y < matrix.Length1 ::
                  matrix[x, y] == if Done(r, i, x) && x < r && y < r && InTriangles(r, x, y)
                                  then old(matrix[r - 1 - x, y]) else old(matrix[x, y])
    {
      SwapRow(r, c, i, matrix);
      i := i + 1;
    }
    forall x, y | 0 <= x < r && 0 <= y < r
      ensures Entries(r, matrix)[(x, y)] == old(Entries(r, matrix))[Partner(r, (x, y))]
    {
      PartnerGeometry(r, x, y);
    }
    SwappedCells(r, old(Entries(r, matrix)), Entries(r, matrix));
  }

  // ---- What the exchange does to the entries of any matrix ----

  // The exchange is its own inverse and stays inside the matrix; the cells that move
  // are exactly those of the upper triangle and their mirror images.
  lemma PartnerInvolution(n: nat, cell: (int, int))
    requires cell in Grid(n)
    ensures Partner(n, cell) in Grid(n) && Partner(n, Partner(n, cell)) == cell
    ensures Partner(n, cell) != cell <==> InTriangles(n, cell.0, cell.1) && 2 * cell.0 != n - 1
  {
  }

  lemma SwappedTwice(n: nat, m: map<(int, int), int>)
    requires m.Keys == Grid(n)
    ensures Swapped(n, Swapped(n, m)) == m
  {
    forall cell | cell in Grid(n) ensures Swapped(n, Swapped(n, m))[cell] == m[cell] {
      PartnerInvolution(n, cell);
    }
  }

  // An injection between finite sets.
  lemma {:induction false} ImageSize(n: nat, a: set<(int, int)>, b: set<(int, int)>)
    requires a <= Grid(n) && b == set cell | cell in a :: Partner(n, cell)
    ensures |a| == |b|
    decreases |a|
  {
    if a != {} {
      var cell :| cell in a;
      var a', b' := a - {cell}, b - {Partner(n, cell)};
      assert b' == set x | x in a' :: Partner(n, x) by {
        forall x | x in a' ensures Partner(n, x) in b' {
          PartnerInvolution(n, x);
          PartnerInvolution(n, cell);
        }
      }
      ImageSize(n, a', b');
    }
  }

  // The cells that hold a value.
  ghost function CellsWith(m: map<(int, int), int>, v: int): set<(int, int)> {
    set cell | cell in m && m[cell] == v
  }

  // Every value occurs as often after the exchange as before.
  lemma SameEntries(n: nat, m: map<(int, int), int>, v: int)
    requires m.Keys == Grid(n)
    ensures |CellsWith(Swapped(n, m), v)| == |CellsWith(m, v)|
  {
    var before, after := CellsWith(m, v), CellsWith(Swapped(n, m), v);
    assert after == set cell | cell in before :: Partner(n, cell) by {
      forall cell | cell in after ensures exists x :: x in before && Partner(n, x) == cell {
        PartnerInvolution(n, cell);
        assert Partner(n, cell) in before;
      }
      forall x | x in before ensures Partner(n, x) in after {
        PartnerInvolution(n, x);
      }
    }
    ImageSize(n, before, after);
  }

  // Running the program's exchange a second time restores every matrix.
  method SwapTwice(r: nat, c: nat, matrix: array2<int>)
    requires 1 <= r == c <= matrix.Length0 && c <= matrix.Length1
    modifies matrix
    ensures forall x, y | 0 <= x < matrix.Length0 && 0 <= y < matrix.Length1 :: matrix[x, y] == old(matrix[x, y])
  {
    ghost var before := Entries(r, matrix);
    SwapUpperLowerTriangle(r, c, matrix);
    SwapUpperLowerTriangle(r, c, matrix);
    SwappedTwice(r, before);
    forall x, y | 0 <= x < r && 0 <= y < r ensures matrix[x, y] == before[(x, y)] {
      assert matrix[x, y] == Entries(r, matrix)[(x, y)];
    }
  }
}
