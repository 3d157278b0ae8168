// The areas that combat hits (MatrixArea in combat.h, AreaCombat in combat.h and
// combat.cpp): grids with a centre, turned and reflected for the other directions.
module CombatArea {

  import opened Arithmetic

  // ---------- Grids as values ----------

  // The centre is a signed number: where the program lets an unsigned one wrap around,
  // it is only ever added to and subtracted from afterwards.
  datatype Area = Area(rows: nat, cols: nat, cells: seq<seq<bool>>, centerX: int, centerY: int)

  predicate WellFormed(a: Area) {
    |a.cells| == a.rows && forall y | 0 <= y < a.rows :: |a.cells[y]| == a.cols
  }

  type Grid = a: Area | WellFormed(a) witness Area(0, 0, [], 0, 0)

  predicate On(a: Grid, x: int, y: int) {
    0 <= x < a.cols && 0 <= y < a.rows && a.cells[y][x]
  }

  // The square at this offset from the centre is hit.
  predicate Covers(a: Grid, dx: int, dy: int) {
    On(a, a.centerX + dx, a.centerY + dy)
  }

  predicate Centred(a: Grid) {
    a.rows > 0 && a.cols > 0 ==> 0 <= a.centerX < a.cols && 0 <= a.centerY < a.rows
  }

  datatype Operation = Copy | Mirror | Flip | Rotate90 | Rotate180 | Rotate270

  predicate IsRotation(op: Operation) {
    op == Rotate90 || op == Rotate180 || op == Rotate270
  }

  // Cosine and sine of the angle, which is a number of right angles
  function Cos(op: Operation): int {
    if op == Rotate90 || op == Rotate270 then 0 else if op == Rotate180 then -1 else 1
  }

  function Sin(op: Operation): int {
    if op == Rotate90 then 1 else if op == Rotate270 then -1 else 0
  }

  // An offset after so many quarter turns, with y growing downwards
  function Rotated(op: Operation, dx: int, dy: int): (int, int) {
    match op
    case Rotate90 => (-dy, dx)
    case Rotate180 => (-dx, -dy)
    case Rotate270 => (dy, -dx)
    case _ => (dx, dy)
  }

  // The rotation matrix that copyArea applies turns by right angles.
  lemma RotationMatrix(op: Operation, dx: int, dy: int)
    ensures (dx * Cos(op) + dy * -Sin(op), dx * Sin(op) + dy * Cos(op)) == Rotated(op, dx, dy)
  {
    assert dx * 0 == 0 && dy * 0 == 0 && dx * -1 == -dx && dy * -1 == -dy && dx * 1 == dx && dy * 1 == dy;
  }

  function Inverse(op: Operation): Operation {
    if op == Rotate90 then Rotate270 else if op == Rotate270 then Rotate90 else op
  }

  // Where copyArea writes the cell (x, y) of a in an n by n output, and where the cell
  // (x, y) of the output comes from
  function Target(a: Grid, op: Operation, n: nat, x: int, y: int): (int, int) {
    match op
    case Copy => (x, y)
    case Mirror => (a.cols - 1 - x, y)
    case Flip => (x, a.rows - 1 - y)
    case _ =>
      var r := Rotated(op, x - a.centerX, y - a.centerY);
      (r.0 + n / 2 - 1, r.1 + n / 2 - 1)
  }

  function Origin(a: Grid, op: Operation, n: nat, x: int, y: int): (int, int) {
    match op
    case Copy => (x, y)
    case Mirror => (a.cols - 1 - x, y)
    case Flip => (x, a.rows - 1 - y)
    case _ =>
      var r := Rotated(Inverse(op), x - (n / 2 - 1), y - (n / 2 - 1));
      (r.0 + a.centerX, r.1 + a.centerY)
  }

  // The centre that copyArea sets: mirroring takes the number of rows for the number of
  // columns, and flipping the other way round.
  function NewCenter(a: Grid, op: Operation, n: nat): (int, int) {
    match op
    case Copy => (a.centerX, a.centerY)
    case Mirror => (a.rows - 1 - a.centerX, a.centerY)
    case Flip => (a.centerX, a.cols - 1 - a.centerY)
    case _ => (n / 2 - 1, n / 2 - 1)
  }

  // The outcome of copyArea
  function Transformed(a: Grid, op: Operation, n: nat): Grid {
    var c := NewCenter(a, op, n);
    Area(n, n, seq(n, y => seq(n, x => var o := Origin(a, op, n, x, y); On(a, o.0, o.1))), c.0, c.1)
  }

  // The output is large enough.
  predicate Fits(a: Grid, op: Operation, n: nat) {
    a.rows <= n && a.cols <= n && (IsRotation(op) ==> Centred(a) && a.rows <= n / 2 && a.cols <= n / 2)
  }

  lemma TargetAndOrigin(a: Grid, op: Operation, n: nat, x: int, y: int)
    ensures var t := Target(a, op, n, x, y); Origin(a, op, n, t.0, t.1) == (x, y)
    ensures var o := Origin(a, op, n, x, y); Target(a, op, n, o.0, o.1) == (x, y)
  {
  }

  // Every cell is written inside the output.
  lemma TargetInBounds(a: Grid, op: Operation, n: nat, x: nat, y: nat)
    requires Fits(a, op, n) && x < a.cols && y < a.rows
    ensures 0 <= Target(a, op, n, x, y).0 < n && 0 <= Target(a, op, n, x, y).1 < n
  {
  }

  lemma OnTransformed(a: Grid, op: Operation, n: nat, x: int, y: int)
    ensures On(Transformed(a, op, n), x, y) <==>
      0 <= x < n && 0 <= y < n && On(a, Origin(a, op, n, x, y).0, Origin(a, op, n, x, y).1)
  {
  }

  lemma OnTarget(a: Grid, op: Operation, n: nat, x: int, y: int)
    requires Fits(a, op, n)
    ensures On(Transformed(a, op, n), Target(a, op, n, x, y).0, Target(a, op, n, x, y).1) <==> On(a, x, y)
  {
    OnTransformed(a, op, n, Target(a, op, n, x, y).0, Target(a, op, n, x, y).1);
    TargetAndOrigin(a, op, n, x, y);
    if On(a, x, y) {
      TargetInBounds(a, op, n, x, y);
    }
  }

  // A rotation turns the offset from the old centre into one from the new centre.
  lemma TargetIsRotated(a: Grid, op: Operation, n: nat, dx: int, dy: int)
    requires IsRotation(op)
    ensures var c, r := NewCenter(a, op, n), Rotated(op, dx, dy);
      Target(a, op, n, a.centerX + dx, a.centerY + dy) == (c.0 + r.0, c.1 + r.1)
  {
  }

  lemma CoversTarget(a: Grid, op: Operation, n: nat, r: (int, int), t: (int, int))
    requires t == (NewCenter(a, op, n).0 + r.0, NewCenter(a, op, n).1 + r.1)
    ensures Covers(Transformed(a, op, n), r.0, r.1) <==> On(Transformed(a, op, n), t.0, t.1)
  {
  }

  // A rotation turns every offset from the centre, and hits nothing else.
  lemma RotationTurnsOffsets(a: Grid, op: Operation, n: nat, dx: int, dy: int)
    requires IsRotation(op) && Fits(a, op, n)
    ensures Covers(Transformed(a, op, n), Rotated(op, dx, dy).0, Rotated(op, dx, dy).1) <==> Covers(a, dx, dy)
  {
    var x, y := a.centerX + dx, a.centerY + dy;
    TargetIsRotated(a, op, n, dx, dy);
    CoversTarget(a, op, n, Rotated(op, dx, dy), Target(a, op, n, x, y));
    OnTarget(a, op, n, x, y);
  }

  ghost predicate QuarterTurn(a: Grid, b: Grid) {
    forall dx, dy :: Covers(b, dx, dy) <==> Covers(a, dy, -dx)
  }

  ghost predicate HalfTurn(a: Grid, b: Grid) {
    forall dx, dy :: Covers(b, dx, dy) <==> Covers(a, -dx, -dy)
  }

  lemma Rotate90Turns(a: Grid, n: nat)
    requires Fits(a, Rotate90, n)
    ensures QuarterTurn(a, Transformed(a, Rotate90, n))
  {
    forall dx, dy
      ensures Covers(Transformed(a, Rotate90, n), dx, dy) <==> Covers(a, dy, -dx)
    {
      RotationTurnsOffsets(a, Rotate90, n, dy, -dx);
    }
  }

  lemma Rotate180Turns(a: Grid, n: nat)
    requires Fits(a, Rotate180, n)
    ensures HalfTurn(a, Transformed(a, Rotate180, n))
  {
    forall dx, dy
      ensures Covers(Transformed(a, Rotate180, n), dx, dy) <==> Covers(a, -dx, -dy)
    {
      RotationTurnsOffsets(a, Rotate180, n, -dx, -dy);
    }
  }

  lemma Rotate270Turns(a: Grid, n: nat)
    requires Fits(a, Rotate270, n)
    ensures QuarterTurn(Transformed(a, Rotate270, n), a)
  {
    forall dx, dy
      ensures Covers(a, dx, dy) <==> Covers(Transformed(a, Rotate270, n), dy, -dx)
    {
      RotationTurnsOffsets(a, Rotate270, n, dx, dy);
    }
  }

  // The directions are quarter turns of one another: north to east to south to west, and
  // back to north.
  lemma QuarterTurns(a: Grid, n: nat)
    requires Centred(a) && a.rows <= n / 2 && a.cols <= n / 2
    ensures QuarterTurn(a, Transformed(a, Rotate90, n))
    ensures QuarterTurn(Transformed(a, Rotate90, n), Transformed(a, Rotate180, n))
    ensures QuarterTurn(Transformed(a, Rotate180, n), Transformed(a, Rotate270, n))
    ensures QuarterTurn(Transformed(a, Rotate270, n), a)
  {
    Rotate90Turns(a, n);
    Rotate180Turns(a, n);
    Rotate270Turns(a, n);
    TurnsChain(a, Transformed(a, Rotate90, n), Transformed(a, Rotate180, n), Transformed(a, Rotate270, n));
  }

  lemma TurnsChain(a: Grid, east: Grid, south: Grid, west: Grid)
    requires QuarterTurn(a, east) && HalfTurn(a, south) && QuarterTurn(west, a)
    ensures QuarterTurn(east, south) && QuarterTurn(south, west)
  {
    forall dx, dy
      ensures Covers(south, dx, dy) <==> Covers(east, dy, -dx)
    {
    }
    forall dx, dy
      ensures Covers(west, dx, dy) <==> Covers(south, dy, -dx)
    {
      assert Covers(a, -dy, dx) <==> Covers(west, dx, - -dy);
    }
  }

  lemma MirrorOffsets(a: Grid, n: nat, dx: int, dy: int)
    requires Fits(a, Mirror, n)
    ensures Covers(Transformed(a, Mirror, n), a.cols - a.rows - dx, dy) <==> Covers(a, dx, dy)
  {
    OnTarget(a, Mirror, n, a.centerX + dx, a.centerY + dy);
  }

  lemma FlipOffsets(a: Grid, n: nat, dx: int, dy: int)
    requires Fits(a, Flip, n)
    ensures Covers(Transformed(a, Flip, n), dx, a.rows - a.cols - dy) <==> Covers(a, dx, dy)
  {
    OnTarget(a, Flip, n, a.centerX + dx, a.centerY + dy);
  }

  // Whether b covers what a covers with left and right, or above and below, exchanged
  ghost predicate MirrorImage(a: Grid, b: Grid) {
    forall dx, dy :: Covers(b, dx, dy) <==> Covers(a, -dx, dy)
  }

  ghost predicate FlipImage(a: Grid, b: Grid) {
    forall dx, dy :: Covers(b, dx, dy) <==> Covers(a, dx, -dy)
  }

  ghost predicate Blank(a: Grid) {
    forall dx, dy :: !Covers(a, dx, dy)
  }

  // No pattern of finitely many squares is the same when shifted.
  lemma {:induction false} ShiftedPatternIsBlank(a: Grid, byX: int, byY: int, dx: int, dy: int)
    requires byX != 0 || byY != 0
    requires forall x, y :: Covers(a, x, y) ==> Covers(a, x + byX, y + byY)
    ensures !Covers(a, dx, dy)
    decreases if byX > 0 then a.cols - (a.centerX + dx) else if byX < 0 then a.centerX + dx + 1
      else if byY > 0 then a.rows - (a.centerY + dy) else a.centerY + dy + 1
  {
    if Covers(a, dx, dy) {
      ShiftedPatternIsBlank(a, byX, byY, dx + byX, dy + byY);
    }
  }

  // Mirroring reflects the pattern exactly when the input is square, or covers nothing.
  lemma MirrorExactly(a: Grid, n: nat)
    requires Fits(a, Mirror, n)
    ensures MirrorImage(a, Transformed(a, Mirror, n)) <==> a.rows == a.cols || Blank(a)
  {
    var m := Transformed(a, Mirror, n);
    var k: int := a.cols - a.rows;
    forall dx, dy
      ensures Covers(m, dx, dy) <==> Covers(a, k - dx, dy)
    {
      MirrorOffsets(a, n, k - dx, dy);
    }
    if MirrorImage(a, m) && k != 0 {
      forall x, y
        ensures Covers(a, x, y) ==> Covers(a, x + k, y + 0)
      {
        assert Covers(m, -x, y) <==> Covers(a, k - -x, y);
        assert Covers(m, -x, y) <==> Covers(a, - -x, y);
      }
      forall dx, dy
        ensures !Covers(a, dx, dy)
      {
        ShiftedPatternIsBlank(a, k, 0, dx, dy);
      }
    }
  }

  lemma FlipExactly(a: Grid, n: nat)
    requires Fits(a, Flip, n)
    ensures FlipImage(a, Transformed(a, Flip, n)) <==> a.rows == a.cols || Blank(a)
  {
    var m := Transformed(a, Flip, n);
    var k: int := a.rows - a.cols;
    forall dx, dy
      ensures Covers(m, dx, dy) <==> Covers(a, dx, k - dy)
    {
      FlipOffsets(a, n, dx, k - dy);
    }
    if FlipImage(a, m) && k != 0 {
      forall x, y
        ensures Covers(a, x, y) ==> Covers(a, x + 0, y + k)
      {
        assert Covers(m, x, -y) <==> Covers(a, x, k - -y);
        assert Covers(m, x, -y) <==> Covers(a, x, - -y);
      }
      forall dx, dy
        ensures !Covers(a, dx, dy)
      {
        ShiftedPatternIsBlank(a, 0, k, dx, dy);
      }
    }
  }

  // The south-east pattern is the south-west one mirrored, which is square whatever the
  // input: it is the input turned upside down and about exactly when flipping worked.
  lemma SouthEastExactly(a: Grid, n: nat)
    requires Fits(a, Flip, n)
    ensures var sw := Transformed(a, Flip, n); var se := Transformed(sw, Mirror, n);
      MirrorImage(sw, se) &&
      (HalfTurn(a, se) <==> a.rows == a.cols || Blank(a))
  {
    var sw := Transformed(a, Flip, n);
    var se := Transformed(sw, Mirror, n);
    MirrorExactly(sw, n);
    FlipExactly(a, n);
    if HalfTurn(a, se) {
      forall dx, dy
        ensures Covers(sw, dx, dy) <==> Covers(a, dx, -dy)
      {
        assert Covers(se, -dx, dy) <==> Covers(sw, - -dx, dy);
        assert Covers(se, -dx, dy) <==> Covers(a, - -dx, -dy);
      }
    }
    if FlipImage(a, sw) {
      forall dx, dy
        ensures Covers(se, dx, dy) <==> Covers(a, -dx, -dy)
      {
        assert Covers(se, dx, dy) <==> Covers(sw, -dx, dy);
        assert Covers(sw, -dx, dy) <==> Covers(a, -dx, -dy);
      }
    }
  }

  // The four diagonal patterns are each other's reflections exactly when the list they
  // are made from is square, or hits nothing.
  lemma DiagonalsExactly(a: Grid, n: nat)
    requires a.rows <= n && a.cols <= n
    ensures var ne, sw := Transformed(a, Mirror, n), Transformed(a, Flip, n);
      var se := Transformed(sw, Mirror, n);
      (MirrorImage(a, ne) && FlipImage(a, sw) && HalfTurn(a, se)) <==> a.rows == a.cols || Blank(a)
  {
    MirrorExactly(a, n);
    FlipExactly(a, n);
    SouthEastExactly(a, n);
  }

  // ---------- Patterns from lists ----------

  // Where the row begins in a list that holds the rows one after the other
  function RowStart(row: nat, cols: nat): nat {
    if row == 0 then 0 else RowStart(row - 1, cols) + cols
  }

  lemma {:induction false} RowStartIs(row: nat, cols: nat)
    ensures RowStart(row, cols) == row * cols
  {
    if row > 0 {
      RowStartIs(row - 1, cols);
      assert row * cols == (row - 1) * cols + cols;
    }
  }

  lemma {:induction false} RowStartGrows(row: nat, rows: nat, cols: nat)
    requires row < rows
    ensures RowStart(row, cols) + cols <= RowStart(rows, cols)
  {
    if row < rows - 1 {
      RowStartGrows(row, rows - 1, cols);
    }
  }

  function Columns(list: seq<nat>, rows: nat): nat {
    if rows == 0 then 0 else |list| / rows
  }

  // The list holds that many whole rows.
  predicate Rectangular(list: seq<nat>, rows: nat) {
    if rows == 0 then list == [] else |list| % rows == 0
  }

  lemma RectangularIs(list: seq<nat>, rows: nat)
    requires Rectangular(list, rows)
    ensures |list| == RowStart(rows, Columns(list, rows))
  {
    RowStartIs(rows, Columns(list, rows));
  }

  predicate Marks(value: nat) { value == 1 || value == 3 }

  predicate Centers(value: nat) { value == 2 || value == 3 }

  function ValueAt(list: seq<nat>, cols: nat, x: nat, y: nat): nat {
    if RowStart(y, cols) + x < |list| then list[RowStart(y, cols) + x] else 0
  }

  // The last of the first n values that sets the centre
  function LastCenter(list: seq<nat>, n: nat): (k: int)
    requires n <= |list|
    ensures -1 <= k < n && (k >= 0 ==> Centers(list[k])) && forall i | k < i < n :: !Centers(list[i])
  {
    if n == 0 then -1 else if Centers(list[n - 1]) then n - 1 else LastCenter(list, n - 1)
  }

  // What createArea makes of a list: hit where there is a 1 or a 3, centred where the
  // last 2 or 3 is, or in the first corner if there is none.
  ghost predicate Describes(list: seq<nat>, rows: nat, a: Grid) {
    var cols, k := Columns(list, rows), LastCenter(list, |list|);
    a.rows == rows && a.cols == cols &&
    (forall x, y :: On(a, x, y) <==> 0 <= x < cols && 0 <= y < rows && Marks(ValueAt(list, cols, x, y))) &&
    CenterIs(a.centerX, a.centerY, rows, cols, k)
  }

  predicate CenterIs(x: int, y: int, rows: nat, cols: nat, k: int) {
    if k < 0 then x == 0 && y == 0
    else 0 <= x < cols && 0 <= y < rows && RowStart(y, cols) + x == k
  }

  lemma DescribedIsCentred(list: seq<nat>, rows: nat, a: Grid)
    requires Describes(list, rows, a)
    ensures Centred(a)
  {
  }

  // In terms of the list alone: hit are the places of ones and threes, and the centre is the place
  // of the last two or three, or the first corner.
  lemma PatternExactly(list: seq<nat>, rows: nat, a: Grid, x: nat, y: nat)
    requires Rectangular(list, rows) && Describes(list, rows, a) && rows > 0 && x < |list| / rows && y < rows
    ensures var cols := |list| / rows;
      y * cols + x < |list| && (On(a, x, y) <==> list[y * cols + x] in {1, 3}) &&
      ((a.centerX, a.centerY) == (x, y) && list[y * cols + x] in {2, 3} <==>
       list[y * cols + x] in {2, 3} && forall i | y * cols + x < i < |list| :: list[i] !in {2, 3})
    ensures (forall i | 0 <= i < |list| :: list[i] !in {2, 3}) ==> (a.centerX, a.centerY) == (0, 0)
  {
    var cols, k := |list| / rows, LastCenter(list, |list|);
    RectangularIs(list, rows);
    RowStartGrows(y, rows, cols);
    RowStartIs(y, cols);
    assert On(a, x, y) <==> Marks(ValueAt(list, cols, x, y));
    if k >= 0 {
      OnePlace(x, y, a.centerX, a.centerY, cols);
    }
  }

  // A place in a list of rows is that of one square only.
  lemma OnePlace(x: nat, y: nat, u: nat, v: nat, cols: nat)
    requires x < cols && u < cols
    ensures RowStart(y, cols) + x == RowStart(v, cols) + u <==> (x, y) == (u, v)
  {
    if y < v {
      RowStartGrows(y, v, cols);
    } else if v < y {
      RowStartGrows(v, y, cols);
    }
  }

  // One row of two squares, the first of them the centre: whatever comes of it, the diagonals
  // are not each other's reflections.
  lemma TwoInARow(a: Grid, n: nat)
    requires Describes([3, 1], 1, a) && n >= 2
    ensures var ne, sw := Transformed(a, Mirror, n), Transformed(a, Flip, n);
      var se := Transformed(sw, Mirror, n);
      !(MirrorImage(a, ne) && FlipImage(a, sw) && HalfTurn(a, se))
  {
    assert RowStart(0, 2) == 0 && ValueAt([3, 1], 2, 1, 0) == 1 && On(a, 1, 0);
    assert Covers(a, 1 - a.centerX, 0 - a.centerY);
    DiagonalsExactly(a, n);
  }

  // ---------- The matrix class ----------

  class MatrixArea {
    var centerX: int
    var centerY: int
    const rows: nat
    const cols: nat
    const data: array2<bool>

    ghost predicate Valid() {
      data.Length0 == rows && data.Length1 == cols
    }

    ghost function Picture(): Grid
      requires Valid()
      reads this, data
    {
      Area(rows, cols,
           seq(rows, y requires 0 <= y < rows reads this, data =>
             seq(cols, x requires 0 <= x < cols reads this, data => data[y, x])),
           centerX, centerY)
    }

    constructor (initRows: nat, initCols: nat)
      ensures Valid() && fresh(data) && rows == initRows && cols == initCols && centerX == 0 && centerY == 0
      ensures forall y, x | 0 <= y < rows && 0 <= x < cols :: !data[y, x]
    {
      centerX := 0;
      centerY := 0;
      rows := initRows;
      cols := initCols;
      data := new bool[initRows, initCols]((y, x) => false);
    }

    method SetValue(row: nat, col: nat, value: bool)
      requires Valid() && row < rows && col < cols
      modifies data
      ensures forall y, x | 0 <= y < rows && 0 <= x < cols ::
        data[y, x] == if y == row && x == col then value else old(data[y, x])
    {
      data[row, col] := value;
    }

    method SetCenter(y: int, x: int)
      modifies `centerX, `centerY
      ensures centerX == x && centerY == y
    {
      centerX := x;
      centerY := y;
    }
  }

  datatype Direction = North | East | South | West | SouthWest | SouthEast | NorthWest | NorthEast

  // The side of the square that holds the pattern whichever way it is turned
  function Room(a: Grid): nat { 2 * Max(a.cols, a.rows) }

  // ---------- Making areas ----------

  // The cells up to (x, y) hold what the list says, and the others are clear.
  ghost predicate FilledTo(area: MatrixArea, list: seq<nat>, x: nat, y: nat)
    requires area.Valid()
    reads area.data
  {
    forall r, c | 0 <= r < area.rows && 0 <= c < area.cols ::
      area.data[r, c] == ((r < y || (r == y && c < x)) && Marks(ValueAt(list, area.cols, c, r)))
  }

  method PutValue(area: MatrixArea, ghost list: seq<nat>, x: nat, y: nat, value: nat)
    requires area.Valid() && x < area.cols && y < area.rows && FilledTo(area, list, x, y)
    requires value == ValueAt(list, area.cols, x, y)
    modifies area, area.data
    ensures FilledTo(area, list, x + 1, y)
    ensures if Centers(value) then area.centerX == x && area.centerY == y
      else area.centerX == old(area.centerX) && area.centerY == old(area.centerY)
  {
    if value == 1 || value == 3 {
      area.SetValue(y, x, true);
    }
    if value == 2 || value == 3 {
      area.SetCenter(y, x);
    }
  }

  lemma FilledRow(area: MatrixArea, list: seq<nat>, y: nat)
    requires area.Valid() && FilledTo(area, list, area.cols, y)
    ensures FilledTo(area, list, 0, y + 1)
  {
  }

  lemma FilledIsDescribed(area: MatrixArea, list: seq<nat>, rows: nat, y: nat)
    requires area.Valid() && area.rows == rows && area.cols == Columns(list, rows) && y >= rows
    requires FilledTo(area, list, 0, y)
    requires CenterIs(area.centerX, area.centerY, rows, area.cols, LastCenter(list, |list|))
    ensures Describes(list, rows, area.Picture())
  {
    var a := area.Picture();
    forall x, y
      ensures On(a, x, y) <==> 0 <= x < a.cols && 0 <= y < rows && Marks(ValueAt(list, a.cols, x, y))
    {
      if 0 <= x < a.cols && 0 <= y < rows {
        assert a.cells[y][x] == area.data[y, x];
      }
    }
  }

  method CreateArea(list: seq<nat>, rows: nat) returns (area: MatrixArea)
    requires Rectangular(list, rows)
    ensures fresh(area) && fresh(area.data) && area.Valid() && Describes(list, rows, area.Picture())
  {
    var cols := 0;
    if rows != 0 {
      cols := |list| / rows;
    }
    RectangularIs(list, rows);
    area := new MatrixArea(rows, cols);
    var x, y, i := 0, 0, 0;
    while i < |list|
      invariant 0 <= i <= |list| && 0 <= y && 0 <= x && i == RowStart(y, cols) + x && (cols > 0 ==> x < cols)
      invariant area.Valid() && fresh(area) && fresh(area.data) && area.rows == rows && area.cols == cols
      invariant FilledTo(area, list, x, y)
      invariant CenterIs(area.centerX, area.centerY, rows, cols, LastCenter(list, i))
    {
      if y >= rows {
        RowsEnd(y, rows, cols);
      }
      if cols == 0 {
        RowStartIs(rows, cols);
      }
      PutValue(area, list, x, y, list[i]);
      x := x + 1;
      if cols == x {
        FilledRow(area, list, y);
        x := 0;
        y := y + 1;
      }
      i := i + 1;
    }
    if y < rows && cols > 0 {
      RowStartGrows(y, rows, cols);
    }
    assert FilledTo(area, list, 0, rows);
    FilledIsDescribed(area, list, rows, rows);
  }

  lemma {:induction false} RowsEnd(y: nat, rows: nat, cols: nat)
    requires y >= rows
    ensures RowStart(y, cols) >= RowStart(rows, cols)
  {
    if y > rows {
      RowsEnd(y - 1, rows, cols);
    }
  }

  // ---------- Copying ----------

  // The input cell that is copied after `major` whole lines and `minor` cells
  function Next(a: Grid, op: Operation, major: int, minor: int): (int, int) {
    match op
    case Copy => (minor, major)
    case Mirror => (a.cols - 1 - minor, major)
    case Flip => (major, a.rows - 1 - minor)
    case _ => (major, minor)
  }

  // The cell has been copied by then.
  predicate Copied(a: Grid, op: Operation, major: int, minor: int, x: int, y: int) {
    match op
    case Copy => y < major || (y == major && x < minor)
    case Mirror => y < major || (y == major && a.cols - 1 - x < minor)
    case Flip => x < major || (x == major && a.rows - 1 - y < minor)
    case _ => x < major || (x == major && y < minor)
  }

  ghost predicate Written(a: Grid, op: Operation, output: MatrixArea, major: int, minor: int)
    requires output.Valid()
    reads output.data
  {
    forall y, x | 0 <= y < output.rows && 0 <= x < output.cols ::
      output.data[y, x] ==
      var o := Origin(a, op, output.rows, x, y);
      On(a, o.0, o.1) && Copied(a, op, major, minor, o.0, o.1)
  }

  ghost predicate Clear(output: MatrixArea)
    requires output.Valid()
    reads output.data
  {
    forall y, x | 0 <= y < output.rows && 0 <= x < output.cols :: !output.data[y, x]
  }

  lemma WrittenNone(a: Grid, op: Operation, output: MatrixArea)
    requires output.Valid() && Clear(output)
    ensures Written(a, op, output, 0, 0)
  {
  }

  // The line that has been copied as far as it goes is behind us.
  lemma WrittenLine(a: Grid, op: Operation, output: MatrixArea, major: nat)
    requires output.Valid()
    requires Written(a, op, output, major, if op == Copy || op == Mirror then a.cols else a.rows)
    ensures Written(a, op, output, major + 1, 0)
  {
  }

  lemma WrittenAll(a: Grid, op: Operation, output: MatrixArea)
    requires output.Valid() && output.rows == output.cols
    requires Written(a, op, output, if op == Copy || op == Mirror then a.rows else a.cols, 0)
    requires NewCenter(a, op, output.rows) == (output.centerX, output.centerY)
    ensures output.Picture() == Transformed(a, op, output.rows)
  {
    var p, t := output.Picture(), Transformed(a, op, output.rows);
    forall y | 0 <= y < output.rows
      ensures p.cells[y] == t.cells[y]
    {
      forall x | 0 <= x < output.cols
        ensures p.cells[y][x] == t.cells[y][x]
      {
        assert p.cells[y][x] == output.data[y, x];
      }
    }
  }

  lemma OnPicture(input: MatrixArea, x: nat, y: nat)
    requires input.Valid() && x < input.cols && y < input.rows
    ensures On(input.Picture(), x, y) <==> input.data[y, x]
  {
  }

  lemma CopiedNext(a: Grid, op: Operation, major: int, minor: int, x: int, y: int)
    ensures Copied(a, op, major, minor + 1, x, y) <==>
      Copied(a, op, major, minor, x, y) || (x, y) == Next(a, op, major, minor)
    ensures var o := Next(a, op, major, minor); !Copied(a, op, major, minor, o.0, o.1)
  {
  }

  // Only the cell's target comes from the cell.
  lemma OnlyTarget(a: Grid, op: Operation, n: nat, x: int, y: int, c: int, r: int)
    ensures Origin(a, op, n, c, r) == (x, y) <==> Target(a, op, n, x, y) == (c, r)
  {
    TargetAndOrigin(a, op, n, x, y);
    TargetAndOrigin(a, op, n, c, r);
  }

  // One cell is copied.
  method CopyCell(input: MatrixArea, output: MatrixArea, ghost op: Operation, ghost major: int, ghost minor: int,
      x: nat, y: nat, tx: nat, ty: nat)
    requires input.Valid() && output.Valid() && input != output && input.data != output.data
    requires output.rows == output.cols && x < input.cols && y < input.rows && tx < output.cols && ty < output.rows
    requires Next(input.Picture(), op, major, minor) == (x, y)
    requires Target(input.Picture(), op, output.rows, x, y) == (tx, ty)
    requires Written(input.Picture(), op, output, major, minor)
    modifies output.data
    ensures Written(input.Picture(), op, output, major, minor + 1)
  {
    ghost var a := input.Picture();
    OnPicture(input, x, y);
    output.data[ty, tx] := input.data[y, x];
    forall r, c | 0 <= r < output.rows && 0 <= c < output.cols
      ensures output.data[r, c] ==
        var o := Origin(a, op, output.rows, c, r);
        On(a, o.0, o.1) && Copied(a, op, major, minor + 1, o.0, o.1)
    {
      var o := Origin(a, op, output.rows, c, r);
      OnlyTarget(a, op, output.rows, x, y, c, r);
      CopiedNext(a, op, major, minor, o.0, o.1);
      assert (r == ty && c == tx) || output.data[r, c] == old(output.data[r, c]);
    }
  }

  method CopyRows(input: MatrixArea, output: MatrixArea)
    requires input.Valid() && output.Valid() && input != output && input.data != output.data
    requires output.rows == output.cols && Clear(output) && Fits(input.Picture(), Copy, output.rows)
    modifies output.data
    ensures Written(input.Picture(), Copy, output, input.rows, 0)
  {
    ghost var a := input.Picture();
    WrittenNone(a, Copy, output);
    for y := 0 to input.rows
      invariant Written(a, Copy, output, y, 0)
    {
      for x := 0 to input.cols
        invariant Written(a, Copy, output, y, x)
      {
        CopyCell(input, output, Copy, y, x, x, y, x, y);
      }
      WrittenLine(a, Copy, output, y);
    }
  }

  method MirrorRows(input: MatrixArea, output: MatrixArea)
    requires input.Valid() && output.Valid() && input != output && input.data != output.data
    requires output.rows == output.cols && Clear(output) && Fits(input.Picture(), Mirror, output.rows)
    modifies output.data
    ensures Written(input.Picture(), Mirror, output, input.rows, 0)
  {
    ghost var a := input.Picture();
    WrittenNone(a, Mirror, output);
    for y := 0 to input.rows
      invariant Written(a, Mirror, output, y, 0)
    {
      var rx := 0;
      var x: int := input.cols;
      while x > 0
        invariant 0 <= x <= input.cols && rx == input.cols - x && Written(a, Mirror, output, y, rx)
      {
        x := x - 1;
        CopyCell(input, output, Mirror, y, rx, x, y, rx, y);
        rx := rx + 1;
      }
      WrittenLine(a, Mirror, output, y);
    }
  }

  method FlipColumns(input: MatrixArea, output: MatrixArea)
    requires input.Valid() && output.Valid() && input != output && input.data != output.data
    requires output.rows == output.cols && Clear(output) && Fits(input.Picture(), Flip, output.rows)
    modifies output.data
    ensures Written(input.Picture(), Flip, output, input.cols, 0)
  {
    ghost var a := input.Picture();
    WrittenNone(a, Flip, output);
    for x := 0 to input.cols
      invariant Written(a, Flip, output, x, 0)
    {
      var ry := 0;
      var y: int := input.rows;
      while y > 0
        invariant 0 <= y <= input.rows && ry == input.rows - y && Written(a, Flip, output, x, ry)
      {
        y := y - 1;
        CopyCell(input, output, Flip, x, ry, x, y, x, ry);
        ry := ry + 1;
      }
      WrittenLine(a, Flip, output, x);
    }
  }

  // The matrix arithmetic gives the target, which is inside the output.
  lemma MatrixTarget(p: Grid, op: Operation, n: nat, x: nat, y: nat)
    requires IsRotation(op) && Fits(p, op, n) && x < p.cols && y < p.rows
    ensures var dx, dy, center := x - p.centerX, y - p.centerY, n / 2 - 1;
      var t := (dx * Cos(op) + dy * -Sin(op) + center, dx * Sin(op) + dy * Cos(op) + center);
      Target(p, op, n, x, y) == t && 0 <= t.0 < n && 0 <= t.1 < n
  {
    RotationMatrix(op, x - p.centerX, y - p.centerY);
    TargetInBounds(p, op, n, x, y);
  }

  // One cell is rotated.
  method RotateCell(input: MatrixArea, output: MatrixArea, op: Operation, x: nat, y: nat,
                    rotateCenterX: int, rotateCenterY: int)
    requires input.Valid() && output.Valid() && input != output && input.data != output.data
    requires IsRotation(op) && x < input.cols && y < input.rows
    requires output.rows == output.cols && Fits(input.Picture(), op, output.rows)
    requires rotateCenterX == rotateCenterY == output.rows / 2 - 1
    requires Written(input.Picture(), op, output, x, y)
    modifies output.data
    ensures Written(input.Picture(), op, output, x, y + 1)
  {
    var a, b, c, d := Cos(op), -Sin(op), Sin(op), Cos(op);
    var newX := x - input.centerX;
    var newY := y - input.centerY;
    var rotatedX := newX * a + newY * b;
    var rotatedY := newX * c + newY * d;
    MatrixTarget(input.Picture(), op, output.rows, x, y);
    CopyCell(input, output, op, x, y, x, y, rotatedX + rotateCenterX, rotatedY + rotateCenterY);
  }

  method RotateColumns(input: MatrixArea, output: MatrixArea, op: Operation, rotateCenterX: int, rotateCenterY: int)
    requires input.Valid() && output.Valid() && input != output && input.data != output.data
    requires IsRotation(op)
    requires output.rows == output.cols && Clear(output) && Fits(input.Picture(), op, output.rows)
    requires rotateCenterX == rotateCenterY == output.rows / 2 - 1
    modifies output.data
    ensures Written(input.Picture(), op, output, input.cols, 0)
  {
    ghost var p := input.Picture();
    WrittenNone(p, op, output);
    for x := 0 to input.cols
      invariant Written(p, op, output, x, 0)
    {
      for y := 0 to input.rows
        invariant Written(p, op, output, x, y)
      {
        RotateCell(input, output, op, x, y, rotateCenterX, rotateCenterY);
      }
      WrittenLine(p, op, output, x);
    }
  }

  method CopyArea(input: MatrixArea, output: MatrixArea, op: Operation)
    requires input.Valid() && output.Valid() && input != output && input.data != output.data
    requires output.rows == output.cols && Clear(output) && Fits(input.Picture(), op, output.rows)
    modifies output, output.data
    ensures output.Picture() == Transformed(input.Picture(), op, output.rows)
  {
    ghost var a := input.Picture();
    if op == Copy {
      CopyRows(input, output);
      output.SetCenter(input.centerY, input.centerX);
    } else if op == Mirror {
      MirrorRows(input, output);
      output.SetCenter(input.centerY, input.rows - 1 - input.centerX);
    } else if op == Flip {
      FlipColumns(input, output);
      output.SetCenter(input.cols - 1 - input.centerY, input.centerX);
    } else {
      var rotateCenterX := output.cols / 2 - 1;
      var rotateCenterY := output.rows / 2 - 1;
      RotateColumns(input, output, op, rotateCenterX, rotateCenterY);
      output.SetCenter(rotateCenterY, rotateCenterX);
    }
    WrittenAll(a, op, output);
  }

  // ---------- Waves ----------

  // How much narrower, on either side, a wave is in a row than in its first row
  function Narrowing(spread: nat, row: nat): nat {
    if spread == 0 then 0 else row / spread
  }

  // How far it reaches to either side in that row
  function HalfWidth(length: nat, spread: nat, row: nat): int {
    Narrowing(spread, length) - Narrowing(spread, row)
  }

  function WaveColumns(length: nat, spread: nat): nat {
    Narrowing(spread, length) * 2 + 1
  }

  function WaveValue(length: nat, spread: nat, x: nat, y: nat): nat {
    var middle := WaveColumns(length, spread) / 2;
    if y + 1 == length && x == middle then 3
    else if -HalfWidth(length, spread, y) <= x - middle <= HalfWidth(length, spread, y) then 1
    else 0
  }

  // What has been listed up to column x of row y
  ghost predicate WaveTo(list: seq<nat>, length: nat, spread: nat, x: nat, y: nat) {
    var cols := WaveColumns(length, spread);
    |list| == RowStart(y, cols) + x &&
    forall c, r | 0 <= c < cols && 0 <= r && (r < y || (r == y && c < x)) ::
      ValueAt(list, cols, c, r) == WaveValue(length, spread, c, r)
  }

  lemma Earlier(c: nat, r: nat, x: nat, y: nat, cols: nat)
    requires c < cols && (r < y || (r == y && c < x))
    ensures RowStart(r, cols) + c < RowStart(y, cols) + x
  {
    if r < y {
      RowStartGrows(r, y, cols);
    }
  }

  lemma WaveStep(list: seq<nat>, length: nat, spread: nat, x: nat, y: nat, value: nat)
    requires WaveTo(list, length, spread, x, y) && x < WaveColumns(length, spread)
    requires value == WaveValue(length, spread, x, y)
    ensures WaveTo(list + [value], length, spread, x + 1, y)
  {
    var cols := WaveColumns(length, spread);
    forall c, r | 0 <= c < cols && 0 <= r && (r < y || (r == y && c < x + 1))
      ensures ValueAt(list + [value], cols, c, r) == WaveValue(length, spread, c, r)
    {
      if r < y || c < x {
        Earlier(c, r, x, y, cols);
        assert ValueAt(list, cols, c, r) == WaveValue(length, spread, c, r);
      }
    }
  }

  lemma WaveRow(list: seq<nat>, length: nat, spread: nat, y: nat)
    requires WaveTo(list, length, spread, WaveColumns(length, spread), y)
    ensures WaveTo(list, length, spread, 0, y + 1)
  {
    var cols := WaveColumns(length, spread);
    forall c, r | 0 <= c < cols && 0 <= r && r < y + 1
      ensures ValueAt(list, cols, c, r) == WaveValue(length, spread, c, r)
    {
    }
  }

  lemma NextNarrowing(spread: nat, row: nat)
    ensures Narrowing(spread, row + 1) ==
      Narrowing(spread, row) + if spread > 0 && (row + 1) % spread == 0 then 1 else 0
  {
    if spread > 0 {
      var q, r := row / spread, row % spread;
      if r + 1 == spread {
        assert row + 1 == (q + 1) * spread;
        DivMod(row + 1, spread, q + 1, 0);
      } else {
        DivMod(row + 1, spread, q, r + 1);
      }
    }
  }

  // The value that the loops list, for the columns that they compute
  lemma WaveCell(length: nat, spread: nat, x: nat, y: nat, cols: nat, colSpread: int)
    requires cols == WaveColumns(length, spread) && colSpread == cols - Narrowing(spread, y) && x < cols
    ensures WaveValue(length, spread, x, y) ==
      if y + 1 == length && x + 1 == (cols - cols % 2) / 2 + 1 then 3
      else if cols - colSpread + 1 <= x + 1 <= cols - (cols - colSpread) then 1
      else 0
  {
    var half := Narrowing(spread, length);
    assert cols == half * 2 + 1 && (cols - cols % 2) / 2 == half;
  }

  // One row of the list
  method WaveListRow(before: seq<nat>, length: nat, ghost spread: nat, y: nat, cols: nat, colSpread: int)
    returns (list: seq<nat>)
    requires 1 <= y <= length && cols == WaveColumns(length, spread) && colSpread == cols - Narrowing(spread, y - 1)
    requires WaveTo(before, length, spread, 0, y - 1)
    ensures WaveTo(list, length, spread, 0, y)
  {
    list := before;
    var mincol := cols - colSpread + 1;
    var maxcol := cols - (cols - colSpread);
    var x := 1;
    while x <= cols
      invariant 1 <= x <= cols + 1 && WaveTo(list, length, spread, x - 1, y - 1)
    {
      var value := 0;
      if y == length && x == (cols - cols % 2) / 2 + 1 {
        value := 3;
      } else if x >= mincol && x <= maxcol {
        value := 1;
      }
      WaveCell(length, spread, x - 1, y - 1, cols, colSpread);
      WaveStep(list, length, spread, x - 1, y - 1, value);
      list := list + [value];
      x := x + 1;
    }
    WaveRow(list, length, spread, y - 1);
  }

  lemma ColumnsOfWave(length: nat, spread: nat)
    requires spread != 0
    ensures (length - length % spread) / spread * 2 + 1 == WaveColumns(length, spread)
  {
    DivMod(length - length % spread, spread, length / spread, 0);
  }

  // The list for a wave of that length that narrows every `spread` rows
  method WaveList(length: nat, spread: nat) returns (list: seq<nat>)
    ensures WaveTo(list, length, spread, 0, length)
  {
    list := [];
    var cols := 1;
    if spread != 0 {
      cols := (length - length % spread) / spread * 2 + 1;
      ColumnsOfWave(length, spread);
    }
    var colSpread: int := cols;
    var y := 1;
    while y <= length
      invariant 1 <= y <= length + 1
      invariant colSpread == cols - Narrowing(spread, y - 1)
      invariant WaveTo(list, length, spread, 0, y - 1)
    {
      list := WaveListRow(list, length, spread, y, cols, colSpread);
      NextNarrowing(spread, y - 1);
      if spread > 0 && y % spread == 0 {
        colSpread := colSpread - 1;
      }
      y := y + 1;
    }
  }

  lemma WaveIsRectangular(list: seq<nat>, length: nat, spread: nat)
    requires WaveTo(list, length, spread, 0, length)
    ensures Rectangular(list, length) && (length > 0 ==> Columns(list, length) == WaveColumns(length, spread))
  {
    var cols := WaveColumns(length, spread);
    RowStartIs(length, cols);
    if length > 0 {
      assert length * cols == cols * length + 0;
      DivMod(|list|, length, cols, 0);
    }
  }

  // The caster stands in the middle of the last row.
  lemma WaveCenter(list: seq<nat>, length: nat, spread: nat)
    requires WaveTo(list, length, spread, 0, length) && length > 0
    ensures LastCenter(list, |list|) == RowStart(length - 1, WaveColumns(length, spread)) + Narrowing(spread, length)
  {
    var cols, middle := WaveColumns(length, spread), Narrowing(spread, length);
    var last, k := RowStart(length - 1, cols), LastCenter(list, |list|);
    assert ValueAt(list, cols, middle, length - 1) == WaveValue(length, spread, middle, length - 1) == 3;
    forall i | last + middle < i < |list|
      ensures !Centers(list[i])
    {
      assert ValueAt(list, cols, i - last, length - 1) == WaveValue(length, spread, i - last, length - 1);
    }
  }

  lemma WaveIsCentred(list: seq<nat>, length: nat, spread: nat, a: Grid)
    requires WaveTo(list, length, spread, 0, length) && Describes(list, length, a) && length > 0
    ensures a.centerY == length - 1 && a.centerX == Narrowing(spread, length) && a.cols == WaveColumns(length, spread)
  {
    WaveIsRectangular(list, length, spread);
    WaveCenter(list, length, spread);
    if a.centerY < length - 1 {
      RowStartGrows(a.centerY, length - 1, a.cols);
    }
  }

  lemma WaveMarks(length: nat, spread: nat, x: nat, y: nat)
    requires x < WaveColumns(length, spread) && y < length
    ensures Marks(WaveValue(length, spread, x, y)) <==>
      -HalfWidth(length, spread, y) <= x - Narrowing(spread, length) <= HalfWidth(length, spread, y)
  {
    NextNarrowing(spread, length - 1);
  }

  // A wave covers, in each row before the caster, exactly the squares within its half
  // width; it is a straight line when it does not spread.
  lemma WaveCovers(list: seq<nat>, length: nat, spread: nat, a: Grid, dx: int, dy: int)
    requires WaveTo(list, length, spread, 0, length) && Describes(list, length, a)
    ensures Covers(a, dx, dy) <==>
      0 < length + dy <= length &&
      -HalfWidth(length, spread, length - 1 + dy) <= dx <= HalfWidth(length, spread, length - 1 + dy)
  {
    if length > 0 {
      WaveIsCentred(list, length, spread, a);
      if 0 < length + dy <= length {
        WaveRowCovers(list, length, spread, a, a.centerX + dx, length - 1 + dy);
      }
    }
  }

  lemma WaveRowCovers(list: seq<nat>, length: nat, spread: nat, a: Grid, x: int, y: nat)
    requires WaveTo(list, length, spread, 0, length) && Describes(list, length, a)
    requires y < length && a.cols == WaveColumns(length, spread)
    ensures On(a, x, y) <==>
      -HalfWidth(length, spread, y) <= x - Narrowing(spread, length) <= HalfWidth(length, spread, y)
  {
    if 0 <= x < a.cols {
      WaveMarks(length, spread, x, y);
      assert ValueAt(list, a.cols, x, y) == WaveValue(length, spread, x, y);
    }
  }

  // ---------- The areas of a spell ----------

  function Sign(v: int): int { if v < 0 then -1 else if v > 0 then 1 else 0 }

  // The step that leads in a direction; y grows towards the south
  function Step(dir: Direction): (int, int) {
    match dir
    case North => (0, -1)
    case East => (1, 0)
    case South => (0, 1)
    case West => (-1, 0)
    case SouthWest => (-1, 1)
    case SouthEast => (1, 1)
    case NorthWest => (-1, -1)
    case NorthEast => (1, -1)
  }

  // The direction in which an area is used: towards the target, sideways rather than up
  // or down if only four directions are set up, and south when aiming at oneself.
  function Facing(dx: int, dy: int, hasExtArea: bool): (dir: Direction)
    ensures dx == dy == 0 ==> dir == South
    ensures (dx != 0 || dy != 0) && (hasExtArea || dx == 0 || dy == 0) ==> Step(dir) == (Sign(dx), Sign(dy))
    ensures !hasExtArea && dx != 0 ==> Step(dir) == (Sign(dx), 0)
  {
    var dir :=
      if dx < 0 then West
      else if dx > 0 then East
      else if dy < 0 then North
      else South;
    if !hasExtArea then dir
    else if dx < 0 && dy < 0 then NorthWest
    else if dx > 0 && dy < 0 then NorthEast
    else if dx < 0 && dy > 0 then SouthWest
    else if dx > 0 && dy > 0 then SouthEast
    else dir
  }

  datatype Position = Position(x: int, y: int)

  // A position keeps 16 bits of each coordinate.
  function Wrapped(p: Position): Position { Position(p.x % 0x1_0000, p.y % 0x1_0000) }

  lemma WrapAdds(n: int, k: int)
    ensures (n % 0x1_0000 + k) % 0x1_0000 == (n + k) % 0x1_0000
  {
    var d := n / 0x1_0000 + (n % 0x1_0000 + k) / 0x1_0000 - (n + k) / 0x1_0000;
    assert d * 0x1_0000 == (n + k) % 0x1_0000 - (n % 0x1_0000 + k) % 0x1_0000;
  }

  // A step within 16 bits is a step of the square that the position stands for.
  lemma WrapMoves(s: Position, dx: int, dy: int)
    ensures Moved(Wrapped(s), dx, dy) == Wrapped(Position(s.x + dx, s.y + dy))
  {
    WrapAdds(s.x, dx);
    WrapAdds(s.y, dy);
  }

  function Moved(p: Position, dx: int, dy: int): Position { Wrapped(Position(p.x + dx, p.y + dy)) }

  // Sight, asked about a square
  function InSight(sightClear: Position -> bool): Position -> bool { p => sightClear(Wrapped(p)) }

  function AllWrapped(spots: seq<Position>): seq<Position> {
    if spots == [] then [] else [Wrapped(spots[0])] + AllWrapped(spots[1..])
  }

  // Reading order: row by row, from west to east
  predicate Before(p: Position, q: Position) {
    p.y < q.y || (p.y == q.y && p.x < q.x)
  }

  method TransformedArea(area: MatrixArea, op: Operation, maxOutput: nat) returns (output: MatrixArea)
    requires area.Valid() && Fits(area.Picture(), op, maxOutput)
    ensures fresh(output) && fresh(output.data) && output.Valid()
    ensures output.Picture() == Transformed(area.Picture(), op, maxOutput)
  {
    output := new MatrixArea(maxOutput, maxOutput);
    CopyArea(area, output, op);
  }

  // Each of the four patterns is the one before it, a quarter turn on.
  ghost predicate InQuarterTurns(north: MatrixArea, east: MatrixArea, south: MatrixArea, west: MatrixArea)
    requires north.Valid() && east.Valid() && south.Valid() && west.Valid()
    reads north, north.data, east, east.data, south, south.data, west, west.data
  {
    QuarterTurn(north.Picture(), east.Picture()) && QuarterTurn(east.Picture(), south.Picture()) &&
    QuarterTurn(south.Picture(), west.Picture()) && QuarterTurn(west.Picture(), north.Picture())
  }

  method RotatedAreas(area: MatrixArea) returns (southArea: MatrixArea, eastArea: MatrixArea, westArea: MatrixArea)
    requires area.Valid() && Centred(area.Picture())
    ensures southArea.Valid() && eastArea.Valid() && westArea.Valid()
    ensures InQuarterTurns(area, eastArea, southArea, westArea)
  {
    ghost var a := area.Picture();
    var maxOutput := Max(area.cols, area.rows) * 2;
    southArea := TransformedArea(area, Rotate180, maxOutput);
    eastArea := TransformedArea(area, Rotate90, maxOutput);
    westArea := TransformedArea(area, Rotate270, maxOutput);
    QuarterTurns(a, maxOutput);
    assert area.Picture() == a && southArea.Picture() == Transformed(a, Rotate180, maxOutput);
    assert eastArea.Picture() == Transformed(a, Rotate90, maxOutput);
  }

  method ReflectedAreas(area: MatrixArea) returns (neArea: MatrixArea, swArea: MatrixArea, seArea: MatrixArea)
    requires area.Valid()
    ensures neArea.Valid() && swArea.Valid() && seArea.Valid()
    ensures neArea.Picture() == Transformed(area.Picture(), Mirror, Room(area.Picture()))
    ensures swArea.Picture() == Transformed(area.Picture(), Flip, Room(area.Picture()))
    ensures seArea.Picture() ==
      Transformed(Transformed(area.Picture(), Flip, Room(area.Picture())), Mirror, Room(area.Picture()))
  {
    var maxOutput := Max(area.cols, area.rows) * 2;
    neArea := TransformedArea(area, Mirror, maxOutput);
    swArea := TransformedArea(area, Flip, maxOutput);
    seArea := TransformedArea(swArea, Mirror, maxOutput);
  }

  predicate Descending(list: seq<Position>) {
    forall i, j | 0 <= i < j < |list| :: Before(list[j], list[i])
  }

  // The pattern laid out at the origin covers the square, which is in sight.
  predicate Hit(a: Grid, origin: Position, sight: Position -> bool, p: Position) {
    On(a, p.x - origin.x, p.y - origin.y) && sight(p)
  }

  // The list holds exactly the squares that the area covers around the target and that are
  // in sight, each once, last in reading order first.
  ghost predicate AreHit(a: Grid, target: Position, sight: Position -> bool, spots: seq<Position>) {
    Descending(spots) &&
    forall p: Position :: p in spots <==> Covers(a, p.x - target.x, p.y - target.y) && sight(p)
  }

  // The list holds the squares hit before `end`.
  ghost predicate Collected(a: Grid, origin: Position, sight: Position -> bool, list: seq<Position>, end: Position) {
    Descending(list) &&
    forall p: Position ::
      p in list <==> Hit(a, origin, sight, p) && Before(p, end)
  }

  lemma BeforeNext(q: Position, p: Position)
    ensures Before(q, Position(p.x + 1, p.y)) <==> Before(q, p) || q == p
    ensures !Before(p, p)
  {
  }

  lemma CollectedCell(a: Grid, origin: Position, sight: Position -> bool, list: seq<Position>, p: Position)
    requires Collected(a, origin, sight, list, p)
    ensures Collected(a, origin, sight, if Hit(a, origin, sight, p) then [p] + list else list, Position(p.x + 1, p.y))
  {
    var longer := if Hit(a, origin, sight, p) then [p] + list else list;
    forall q | q in list
      ensures Before(q, p)
    {
    }
    DescendingFront(p, list);
    forall q: Position
      ensures q in longer <==> Hit(a, origin, sight, q) && Before(q, Position(p.x + 1, p.y))
    {
      BeforeNext(q, p);
      if q == p {
        assert p !in list;
      } else {
        assert q in longer <==> q in list;
      }
    }
  }

  lemma DescendingFront(p: Position, list: seq<Position>)
    requires Descending(list) && forall q | q in list :: Before(q, p)
    ensures Descending([p] + list)
  {
  }

  lemma CollectedRow(a: Grid, origin: Position, sight: Position -> bool, list: seq<Position>, y: int)
    requires Collected(a, origin, sight, list, Position(origin.x + a.cols, y))
    ensures Collected(a, origin, sight, list, Position(origin.x, y + 1))
  {
    forall p: Position
      ensures p in list <==> Hit(a, origin, sight, p) && Before(p, Position(origin.x, y + 1))
    {
    }
  }

  lemma CollectedAll(a: Grid, origin: Position, target: Position, sight: Position -> bool, list: seq<Position>)
    requires Collected(a, origin, sight, list, Position(origin.x, origin.y + a.rows))
    requires origin == Position(target.x - a.centerX, target.y - a.centerY)
    ensures forall p: Position :: p in list <==> Covers(a, p.x - target.x, p.y - target.y) && sight(p)
  {
    forall p: Position
      ensures p in list <==> Covers(a, p.x - target.x, p.y - target.y) && sight(p)
    {
      assert Hit(a, origin, sight, p) <==> Covers(a, p.x - target.x, p.y - target.y) && sight(p);
      assert Hit(a, origin, sight, p) ==> Before(p, Position(origin.x, origin.y + a.rows));
    }
  }

  class AreaCombat {
    var areas: map<Direction, MatrixArea>
    var hasExtArea: bool

    ghost predicate Valid()
      reads this
    {
      forall dir | dir in areas :: areas[dir].Valid()
    }

    method SetupArea(list: seq<nat>, rows: nat)
      requires Valid() && Rectangular(list, rows)
      modifies `areas
      ensures Valid() && {North, East, South, West} <= areas.Keys && areas == old(areas)
        [North := areas[North]][South := areas[South]][East := areas[East]][West := areas[West]]
      ensures Describes(list, rows, areas[North].Picture())
      ensures InQuarterTurns(areas[North], areas[East], areas[South], areas[West])
    {
      var area := CreateArea(list, rows);
      DescribedIsCentred(list, rows, area.Picture());
      var southArea, eastArea, westArea := RotatedAreas(area);
      areas := areas[North := area][South := southArea][East := eastArea][West := westArea];
    }

    // A wave of that length that narrows every `spread` rows towards the caster
    method SetupWave(length: nat, spread: nat)
      requires Valid()
      modifies `areas
      ensures Valid() && {North, East, South, West} <= areas.Keys && areas == old(areas)
        [North := areas[North]][South := areas[South]][East := areas[East]][West := areas[West]]
      ensures forall dx, dy :: Covers(areas[North].Picture(), dx, dy) <==>
        0 < length + dy <= length &&
        -HalfWidth(length, spread, length - 1 + dy) <= dx <= HalfWidth(length, spread, length - 1 + dy)
      ensures InQuarterTurns(areas[North], areas[East], areas[South], areas[West])
    {
      var list := WaveList(length, spread);
      WaveIsRectangular(list, length, spread);
      SetupArea(list, length);
      ghost var a := areas[North].Picture();
      forall dx, dy
        ensures Covers(a, dx, dy) <==>
          0 < length + dy <= length &&
          -HalfWidth(length, spread, length - 1 + dy) <= dx <= HalfWidth(length, spread, length - 1 + dy)
      {
        WaveCovers(list, length, spread, a, dx, dy);
      }
    }

    method SetupExtArea(list: seq<nat>, rows: nat)
      requires Valid() && Rectangular(list, rows)
      modifies this
      ensures Valid()
      ensures list == [] ==> areas == old(areas) && hasExtArea == old(hasExtArea)
      ensures list != [] ==>
        hasExtArea && {NorthWest, NorthEast, SouthWest, SouthEast} <= areas.Keys && areas == old(areas)
        [NorthWest := areas[NorthWest]][NorthEast := areas[NorthEast]]
        [SouthWest := areas[SouthWest]][SouthEast := areas[SouthEast]] &&
        Describes(list, rows, areas[NorthWest].Picture()) &&
        var a := areas[NorthWest].Picture();
        areas[NorthEast].Picture() == Transformed(a, Mirror, Room(a)) &&
        areas[SouthWest].Picture() == Transformed(a, Flip, Room(a)) &&
        areas[SouthEast].Picture() == Transformed(Transformed(a, Flip, Room(a)), Mirror, Room(a))
    {
      if list == [] {
        return;
      }
      hasExtArea := true;
      var area := CreateArea(list, rows);
      var neArea, swArea, seArea := ReflectedAreas(area);
      areas := areas[NorthWest := area][NorthEast := neArea][SouthWest := swArea][SouthEast := seArea];
    }

    function GetArea(centerPos: Position, targetPos: Position): MatrixArea?
      reads this
    {
      var dir := Facing(targetPos.x - centerPos.x, targetPos.y - centerPos.y, hasExtArea);
      if dir in areas then areas[dir] else null
    }

    // One cell of the area, laid out at the origin
    static method VisitCell(area: MatrixArea, x: nat, y: nat, ghost origin: Position, sightClear: Position -> bool,
                            tmpPos: Position, before: seq<Position>, ghost spotsBefore: seq<Position>)
      returns (list: seq<Position>, ghost spots: seq<Position>)
      requires area.Valid() && x < area.cols && y < area.rows
      requires tmpPos == Wrapped(Position(origin.x + x, origin.y + y)) && before == AllWrapped(spotsBefore)
      requires Collected(area.Picture(), origin, InSight(sightClear), spotsBefore, Position(origin.x + x, origin.y + y))
      ensures list == AllWrapped(spots)
      ensures Collected(area.Picture(), origin, InSight(sightClear), spots, Position(origin.x + x + 1, origin.y + y))
    {
      ghost var spot := Position(origin.x + x, origin.y + y);
      OnPicture(area, x, y);
      CollectedCell(area.Picture(), origin, InSight(sightClear), spotsBefore, spot);
      list, spots := before, spotsBefore;
      if area.data[y, x] && sightClear(tmpPos) {
        list, spots := [tmpPos] + before, [spot] + spotsBefore;
      }
    }

    // The tiles hit: exactly the squares that the area chosen for this aim covers around
    // the target and that are in its sight, each once, last in reading order first.
    // A position holds the coordinates of its square in 16 bits.
    method GetList(centerPos: Position, targetPos: Position, sightClear: Position -> bool) returns (list: seq<Position>)
      requires Valid()
      ensures GetArea(centerPos, targetPos) == null ==> list == []
      ensures GetArea(centerPos, targetPos) != null ==>
        exists spots :: AreHit(GetArea(centerPos, targetPos).Picture(), targetPos, InSight(sightClear), spots) &&
                        list == AllWrapped(spots)
    {
      list := [];
      ghost var spots: seq<Position> := [];
      var area := GetArea(centerPos, targetPos);
      if area == null {
        return;
      }
      ghost var a := area.Picture();
      ghost var inSight := InSight(sightClear);
      ghost var origin := Position(targetPos.x - area.centerX, targetPos.y - area.centerY);
      ghost var spot := origin;
      var tmpPos := Wrapped(Position(targetPos.x - area.centerX, targetPos.y - area.centerY));
      for y := 0 to area.rows
        invariant spot == Position(origin.x, origin.y + y) && tmpPos == Wrapped(spot)
        invariant list == AllWrapped(spots)
        invariant Collected(a, origin, inSight, spots, spot)
      {
        for x := 0 to area.cols
          invariant spot == Position(origin.x + x, origin.y + y) && tmpPos == Wrapped(spot)
          invariant list == AllWrapped(spots)
          invariant Collected(a, origin, inSight, spots, spot)
        {
          list, spots := VisitCell(area, x, y, origin, sightClear, tmpPos, list, spots);
          WrapMoves(spot, 1, 0);
          tmpPos, spot := Moved(tmpPos, 1, 0), Position(spot.x + 1, spot.y);
        }
        CollectedRow(a, origin, inSight, spots, spot.y);
        WrapMoves(spot, 0 - area.cols, 0);
        WrapMoves(Position(spot.x - area.cols, spot.y), 0, 1);
        tmpPos, spot := Moved(tmpPos, 0 - area.cols, 0), Position(spot.x - area.cols, spot.y);
        tmpPos, spot := Moved(tmpPos, 0, 1), Position(spot.x, spot.y + 1);
      }
      CollectedAll(a, origin, targetPos, inSight, spots);
      assert AreHit(a, targetPos, inSight, spots);
    }
  }
}
