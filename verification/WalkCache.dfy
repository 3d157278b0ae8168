// The creature walk cache (creature.cpp): a 23x23 grid of "can I walk there"
// answers around a creature, shifted in place when the creature takes a step
// and refreshed only along the edges that come into view.
module WalkCache {

  import opened Arithmetic

  // maxWalkCacheWidth, maxWalkCacheHeight, mapWalkWidth and mapWalkHeight.
  const HALF_WIDTH := 11
  const HALF_HEIGHT := 11
  const WIDTH := 23
  const HEIGHT := 23

  type Coord = n: int | 0 <= n < 0x1_0000
  datatype Position = Position(x: Coord, y: Coord, z: int)

  // Whether the tile at a position exists and its queryAdd accepts the creature.
  type Walkable = Position -> bool

  type Grid = g: seq<seq<bool>> | |g| == HEIGHT && forall y | 0 <= y < HEIGHT :: |g[y]| == WIDTH
    witness seq(HEIGHT, _ => seq(WIDTH, _ => false))

  // A coordinate passed to Map::getTile or stored in a Position is cut to 16 bits.
  function Wrap16(n: int): Coord { n % 0x1_0000 }

  predicate InGrid(y: int, x: int) { 0 <= y < HEIGHT && 0 <= x < WIDTH }

  function TileAt(walk: Walkable, x: int, y: int, z: int): bool {
    walk(Position(Wrap16(x), Wrap16(y), z))
  }

  // The walkability the cell (y, x) is meant to hold for a creature at "at".
  function CellTile(walk: Walkable, at: Position, y: int, x: int): bool {
    TileAt(walk, at.x + x - HALF_WIDTH, at.y + y - HALF_HEIGHT, at.z)
  }

  predicate Near(at: Position, p: Position) {
    p.z == at.z && Abs(p.x - at.x) <= HALF_WIDTH && Abs(p.y - at.y) <= HALF_HEIGHT
  }

  // ---------- What the cache answers ----------

  function Lookup(g: Grid, at: Position, p: Position): bool
    requires Near(at, p)
  {
    g[HALF_HEIGHT + p.y - at.y][HALF_WIDTH + p.x - at.x]
  }

  // getWalkCache of a creature whose cache is on.
  function Answer(g: Grid, at: Position, p: Position): int {
    if at.z != p.z then 0
    else if p == at then 1
    else if Near(at, p) then (if Lookup(g, at, p) then 1 else 0)
    else 2
  }

  // The answer a cache rebuilt from scratch gives.
  function RebuiltAnswer(walk: Walkable, at: Position, p: Position): int {
    if at.z != p.z then 0
    else if p == at then 1
    else if Near(at, p) then (if walk(p) then 1 else 0)
    else 2
  }

  ghost predicate Agrees(g: Grid, at: Position, walk: Walkable) {
    forall p: Position :: Answer(g, at, p) == RebuiltAnswer(walk, at, p)
  }

  // The worlds before and after a step differ on this floor at most at the two tiles.
  ghost predicate ChangedOnlyAt(before: Walkable, after: Walkable, z: int, p: Position, q: Position) {
    forall r: Position :: r.z == z && r != p && r != q ==> before(r) == after(r)
  }

  predicate OneTileStep(from: Position, to: Position) {
    from != to && from.z == to.z && Abs(from.x - to.x) <= 1 && Abs(from.y - to.y) <= 1
  }

  // south-east or south-west
  predicate SouthDiagonal(from: Position, to: Position) {
    from.y < to.y && from.x != to.x
  }

  // ---------- One step as a function on the grid ----------

  // Rows shifted by a vertical step, with the row that came into view read from the map.
  function RowShifted(g: Grid, walk: Walkable, from: Position, to: Position, y: int, x: int): bool
    requires InGrid(y, x)
  {
    if to.y < from.y then
      if y == 0 then CellTile(walk, to, 0, x) else g[y - 1][x]
    else if from.y < to.y then
      if y == HEIGHT - 1 then CellTile(walk, to, HEIGHT - 1, x) else g[y + 1][x]
    else
      g[y][x]
  }

  // Then the columns, from row |dy| down, and the column that came into view.
  function ColumnShifted(g: Grid, walk: Walkable, from: Position, to: Position, y: int, x: int): bool
    requires InGrid(y, x)
  {
    var starty := Abs(from.y - to.y);
    if from.x < to.x then
      if x == WIDTH - 1 then CellTile(walk, to, y, x)
      else RowShifted(g, walk, from, to, y, if starty <= y then x + 1 else x)
    else if to.x < from.x then
      if x == 0 then CellTile(walk, to, y, x)
      else RowShifted(g, walk, from, to, y, if starty <= y then x - 1 else x)
    else
      RowShifted(g, walk, from, to, y, x)
  }

  // Last, the tile the creature left.
  function SteppedCell(g: Grid, walk: Walkable, from: Position, to: Position, y: int, x: int): bool
    requires InGrid(y, x)
  {
    if Near(to, from) && y == HALF_HEIGHT + from.y - to.y && x == HALF_WIDTH + from.x - to.x
    then walk(from)
    else ColumnShifted(g, walk, from, to, y, x)
  }

  function Stepped(g: Grid, walk: Walkable, from: Position, to: Position): Grid {
    seq(HEIGHT, y requires 0 <= y < HEIGHT =>
      seq(WIDTH, x requires 0 <= x < WIDTH => SteppedCell(g, walk, from, to, y, x)))
  }

  // onCreatureMove for another creature that left p for q, or a change of one tile (p == q).
  function Noticed(g: Grid, walk: Walkable, at: Position, p: Position, q: Position): Grid {
    seq(HEIGHT, y requires 0 <= y < HEIGHT =>
      seq(WIDTH, x requires 0 <= x < WIDTH =>
        NoticedCell(g, walk, at, p, q, y, x)))
  }

  function NoticedCell(g: Grid, walk: Walkable, at: Position, p: Position, q: Position, y: int, x: int): bool
    requires InGrid(y, x)
  {
    if IsCell(at, p, y, x) then walk(p) else if IsCell(at, q, y, x) then walk(q) else g[y][x]
  }

  predicate IsCell(at: Position, p: Position, y: int, x: int) {
    p.z == at.z && y == HALF_HEIGHT + p.y - at.y && x == HALF_WIDTH + p.x - at.x
  }

  lemma SameGrid(g: Grid, h: Grid)
    requires forall y, x | InGrid(y, x) :: g[y][x] == h[y][x]
    ensures g == h
  {
    forall y | 0 <= y < HEIGHT
      ensures g[y] == h[y]
    {
      assert forall x | 0 <= x < WIDTH :: InGrid(y, x);
    }
  }

  // ---------- The creature ----------

  class Creature {
    const useCacheMap: bool
    const localMapCache: array2<bool>
    var position: Position
    var isMapLoaded: bool

    ghost predicate Valid()
      reads this
    {
      localMapCache.Length0 == HEIGHT && localMapCache.Length1 == WIDTH &&
      (isMapLoaded ==> useCacheMap)
    }

    ghost function Cache(): Grid
      requires Valid()
      reads this, localMapCache
    {
      seq(HEIGHT, y requires 0 <= y < HEIGHT && Valid() reads this, localMapCache =>
        seq(WIDTH, x requires 0 <= x < WIDTH && Valid() reads this, localMapCache => localMapCache[y, x]))
    }

    constructor (useCacheMap: bool, at: Position)
      ensures Valid() && this.useCacheMap == useCacheMap && position == at && !isMapLoaded
      ensures fresh(localMapCache)
    {
      this.useCacheMap := useCacheMap;
      position := at;
      isMapLoaded := false;
      localMapCache := new bool[HEIGHT, WIDTH]((_, _) => false);
    }

    method GetWalkCache(p: Position) returns (r: int)
      requires Valid()
      ensures r == if useCacheMap then Answer(Cache(), position, p) else 2
    {
      if !useCacheMap {
        return 2;
      }
      if position.z != p.z {
        return 0;
      }
      if p == position {
        return 1;
      }
      var dx := p.x - position.x;
      if Abs(dx) <= HALF_WIDTH {
        var dy := p.y - position.y;
        if Abs(dy) <= HALF_HEIGHT {
          return if localMapCache[HALF_HEIGHT + dy, HALF_WIDTH + dx] then 1 else 0;
        }
      }
      return 2;
    }

    // updateTileCache(newTile, dx, dy); "tile" is the outcome of queryAdd.
    method UpdateTileCacheAt(tile: bool, dx: int, dy: int)
      requires Valid()
      modifies localMapCache
      ensures forall y, x | InGrid(y, x) ::
        localMapCache[y, x] ==
        if y == HALF_HEIGHT + dy && x == HALF_WIDTH + dx then tile else old(localMapCache[y, x])
    {
      if Abs(dx) <= HALF_WIDTH && Abs(dy) <= HALF_HEIGHT {
        localMapCache[HALF_HEIGHT + dy, HALF_WIDTH + dx] := tile;
      }
    }

    // updateTileCache(tile, pos)
    method UpdateTileCache(tile: bool, p: Position)
      requires Valid()
      modifies localMapCache
      ensures forall y, x | InGrid(y, x) ::
        localMapCache[y, x] ==
        if p.z == position.z && y == HALF_HEIGHT + p.y - position.y && x == HALF_WIDTH + p.x - position.x
        then tile else old(localMapCache[y, x])
    {
      if p.z == position.z {
        UpdateTileCacheAt(tile, p.x - position.x, p.y - position.y);
      }
    }

    // Full rebuild. Cells that hang over the 16-bit edge of the map keep their content.
    method UpdateMapCache(walk: Walkable)
      requires Valid()
      modifies localMapCache
      ensures Agrees(Cache(), position, walk)
    {
      for j := -HALF_HEIGHT to HALF_HEIGHT + 1
        invariant forall p: Position | Near(position, p) && p.y - position.y < j ::
          localMapCache[HALF_HEIGHT + p.y - position.y, HALF_WIDTH + p.x - position.x] == walk(p)
      {
        for i := -HALF_WIDTH to HALF_WIDTH + 1
          invariant forall p: Position | Near(position, p) &&
            (p.y - position.y < j || (p.y - position.y == j && p.x - position.x < i)) ::
            localMapCache[HALF_HEIGHT + p.y - position.y, HALF_WIDTH + p.x - position.x] == walk(p)
        {
          var p := Position(Wrap16(position.x + i), Wrap16(position.y + j), position.z);
          UpdateTileCache(walk(p), p);
        }
      }
    }

    // onCreatureAppear for the creature itself
    method OnAppear(walk: Walkable)
      requires Valid()
      modifies this`isMapLoaded, localMapCache
      ensures Valid() && isMapLoaded == (old(isMapLoaded) || useCacheMap)
      ensures useCacheMap ==> Agrees(Cache(), position, walk)
    {
      if useCacheMap {
        isMapLoaded := true;
        UpdateMapCache(walk);
      }
    }

    method ShiftRowsSouth()
      requires Valid()
      modifies localMapCache
      ensures forall y, x | InGrid(y, x) ::
        localMapCache[y, x] ==
        old(localMapCache[if y == 0 then 0 else y - 1, x])
    {
      var y := HEIGHT - 1;
      while y > 0
        invariant 0 <= y <= HEIGHT - 1
        invariant forall j, x | InGrid(j, x) ::
          localMapCache[j, x] ==
          if j <= y then old(localMapCache[j, x]) else old(localMapCache[j - 1, x])
      {
        y := y - 1;
        forall x | 0 <= x < WIDTH {
          localMapCache[y + 1, x] := localMapCache[y, x];
        }
      }
    }

    method ShiftRowsNorth()
      requires Valid()
      modifies localMapCache
      ensures forall y, x | InGrid(y, x) ::
        localMapCache[y, x] ==
        old(localMapCache[if y == HEIGHT - 1 then y else y + 1, x])
    {
      for y := 0 to HEIGHT - 1
        invariant forall j, x | InGrid(j, x) ::
          localMapCache[j, x] ==
          if j < y then old(localMapCache[j + 1, x]) else old(localMapCache[j, x])
      {
        forall x | 0 <= x < WIDTH {
          localMapCache[y, x] := localMapCache[y + 1, x];
        }
      }
    }

    // One row moves to the left, over its first cell.
    method ShiftRowWest(y: int)
      requires Valid() && 0 <= y < HEIGHT
      modifies localMapCache
      ensures forall j, x | InGrid(j, x) ::
        localMapCache[j, x] == old(localMapCache[j, if j == y && x < WIDTH - 1 then x + 1 else x])
    {
      for i := 0 to WIDTH - 1
        invariant forall j, x | InGrid(j, x) ::
          localMapCache[j, x] == old(localMapCache[j, if j == y && x < i then x + 1 else x])
      {
        localMapCache[y, i] := localMapCache[y, i + 1];
      }
    }

    method ShiftColumnsWest(starty: int, endy: int)
      requires Valid() && 0 <= starty <= endy + 1 && endy < HEIGHT
      modifies localMapCache
      ensures forall y, x | InGrid(y, x) ::
        localMapCache[y, x] ==
        old(localMapCache[y, if starty <= y <= endy && x < WIDTH - 1 then x + 1 else x])
    {
      for y := starty to endy + 1
        invariant forall j, x | InGrid(j, x) ::
          localMapCache[j, x] ==
          old(localMapCache[j, if starty <= j < y && x < WIDTH - 1 then x + 1 else x])
      {
        ShiftRowWest(y);
      }
    }

    // One row moves to the right, over its last cell.
    method ShiftRowEast(y: int)
      requires Valid() && 0 <= y < HEIGHT
      modifies localMapCache
      ensures forall j, x | InGrid(j, x) ::
        localMapCache[j, x] == old(localMapCache[j, if j == y && 0 < x then x - 1 else x])
    {
      for i := WIDTH - 1 downto 0
        invariant forall j, x | InGrid(j, x) && (j != y || x <= i) :: localMapCache[j, x] == old(localMapCache[j, x])
        invariant forall x | i < x < WIDTH :: localMapCache[y, x] == old(localMapCache[y, x - 1])
      {
        localMapCache[y, i + 1] := localMapCache[y, i];
      }
    }

    method ShiftColumnsEast(starty: int, endy: int)
      requires Valid() && 0 <= starty <= endy + 1 && endy < HEIGHT
      modifies localMapCache
      ensures forall y, x | InGrid(y, x) ::
        localMapCache[y, x] ==
        old(localMapCache[y, if starty <= y <= endy && 0 < x then x - 1 else x])
    {
      for y := starty to endy + 1
        invariant forall j, x | InGrid(j, x) ::
          localMapCache[j, x] ==
          old(localMapCache[j, if starty <= j < y && 0 < x then x - 1 else x])
      {
        ShiftRowEast(y);
      }
    }

    method RefreshRow(walk: Walkable, dy: int)
      requires Valid() && Abs(dy) <= HALF_HEIGHT
      modifies localMapCache
      ensures forall y, x | InGrid(y, x) ::
        localMapCache[y, x] ==
        if y == HALF_HEIGHT + dy then CellTile(walk, position, y, x) else old(localMapCache[y, x])
    {
      for dx := -HALF_WIDTH to HALF_WIDTH + 1
        invariant forall y, x | InGrid(y, x) ::
          localMapCache[y, x] ==
          if y == HALF_HEIGHT + dy && x < HALF_WIDTH + dx then CellTile(walk, position, y, x)
          else old(localMapCache[y, x])
      {
        UpdateTileCacheAt(TileAt(walk, position.x + dx, position.y + dy, position.z), dx, dy);
      }
    }

    method RefreshColumn(walk: Walkable, dx: int)
      requires Valid() && Abs(dx) <= HALF_WIDTH
      modifies localMapCache
      ensures forall y, x | InGrid(y, x) ::
        localMapCache[y, x] ==
        if x == HALF_WIDTH + dx then CellTile(walk, position, y, x) else old(localMapCache[y, x])
    {
      for dy := -HALF_HEIGHT to HALF_HEIGHT + 1
        invariant forall y, x | InGrid(y, x) ::
          localMapCache[y, x] ==
          if x == HALF_WIDTH + dx && y < HALF_HEIGHT + dy then CellTile(walk, position, y, x)
          else old(localMapCache[y, x])
      {
        UpdateTileCacheAt(TileAt(walk, position.x + dx, position.y + dy, position.z), dx, dy);
      }
    }

    // The cache part of onCreatureMove when the creature itself moved: "position" is
    // already the new position, and Map::moveCreature calls every move that is not to
    // a neighbouring tile of the same floor a teleport.
    method OnOwnMove(from: Position, teleport: bool, walk: Walkable)
      requires Valid()
      requires !teleport && from.z == position.z ==> OneTileStep(from, position)
      modifies localMapCache
      ensures !isMapLoaded ==> Cache() == old(Cache())
      ensures isMapLoaded && (teleport || from.z != position.z) ==> Agrees(Cache(), position, walk)
      ensures isMapLoaded && !teleport && from.z == position.z ==>
        Cache() == Stepped(old(Cache()), walk, from, position)
    {
      if isMapLoaded {
        if teleport || from.z != position.z {
          UpdateMapCache(walk);
        } else {
          ghost var g := Cache();
          ShiftAndRefresh(from, walk);
          UpdateTileCache(walk(from), from);
          SameGrid(Cache(), Stepped(g, walk, from, position));
        }
      }
    }

    method ShiftAndRefresh(from: Position, walk: Walkable)
      requires Valid() && OneTileStep(from, position)
      modifies localMapCache
      ensures forall y, x | InGrid(y, x) ::
        localMapCache[y, x] ==
        ColumnShifted(old(Cache()), walk, from, position, y, x)
    {
      ghost var g := Cache();
      if from.y > position.y { // north
        ShiftRowsSouth();
        RefreshRow(walk, -HALF_HEIGHT);
      } else if from.y < position.y { // south
        ShiftRowsNorth();
        RefreshRow(walk, HALF_HEIGHT);
      }
      assert forall y, x | InGrid(y, x) :: localMapCache[y, x] == RowShifted(g, walk, from, position, y, x);

      // getDistanceY is an absolute value, so the first branch never runs.
      var starty, endy := 0, HEIGHT - 1;
      var dy := Abs(from.y - position.y);
      if dy < 0 {
        endy := endy + dy;
      } else if dy > 0 {
        starty := dy;
      }
      if from.x < position.x { // east
        ShiftColumnsWest(starty, endy);
        RefreshColumn(walk, HALF_WIDTH);
      } else if from.x > position.x { // west
        ShiftColumnsEast(starty, endy);
        RefreshColumn(walk, -HALF_WIDTH);
      }
    }

    // onCreatureMove for another creature, and the tile item notifications: the
    // tiles that changed are looked up again.
    method OnOtherMove(p: Position, q: Position, walk: Walkable)
      requires Valid()
      modifies localMapCache
      ensures Cache() == if isMapLoaded then Noticed(old(Cache()), walk, position, p, q) else old(Cache())
    {
      if isMapLoaded {
        ghost var g := Cache();
        if q.z == position.z {
          UpdateTileCache(walk(q), q);
        }
        if p.z == position.z {
          UpdateTileCache(walk(p), p);
        }
        assert forall y, x | InGrid(y, x) :: Cache()[y][x] == NoticedCell(g, walk, position, p, q, y, x);
        SameGrid(Cache(), Noticed(g, walk, position, p, q));
      }
    }
  }

  // ---------- Theorems ----------

  lemma SteppedAt(g: Grid, walk: Walkable, from: Position, to: Position, y: int, x: int)
    requires InGrid(y, x)
    ensures Stepped(g, walk, from, to)[y][x] == SteppedCell(g, walk, from, to, y, x)
  {
  }

  // A cell that comes from a shift of the old grid held the answer for the same tile.
  lemma OldCell(g: Grid, before: Walkable, after: Walkable, from: Position, to: Position, p: Position)
    requires OneTileStep(from, to) && Agrees(g, from, before) && ChangedOnlyAt(before, after, to.z, from, to)
    requires Near(from, p) && p != from && p != to
    ensures Lookup(g, from, p) == after(p)
  {
    assert Answer(g, from, p) == RebuiltAnswer(before, from, p);
  }

  // Every step but the two southern diagonals keeps the cache equal to a full rebuild.
  lemma StepMatchesRebuild(g: Grid, before: Walkable, after: Walkable, from: Position, to: Position)
    requires OneTileStep(from, to) && !SouthDiagonal(from, to)
    requires Agrees(g, from, before) && ChangedOnlyAt(before, after, to.z, from, to)
    ensures Agrees(Stepped(g, after, from, to), to, after)
  {
    var g' := Stepped(g, after, from, to);
    forall p: Position
      ensures Answer(g', to, p) == RebuiltAnswer(after, to, p)
    {
      if Near(to, p) && p != to {
        SteppedAt(g, after, from, to, HALF_HEIGHT + p.y - to.y, HALF_WIDTH + p.x - to.x);
        if Near(from, p) && p != from {
          OldCell(g, before, after, from, to, p);
        }
      }
    }
  }

  // A world whose tiles are walkable exactly at one place.
  function OnlyAt(p: Position): Walkable { q => q == p }

  // The tile of the bottom row whose answer a southern diagonal step gets wrong in
  // the world where only "victim" is walkable.
  function Victim(from: Position, to: Position): Position
    requires OneTileStep(from, to) && SouthDiagonal(from, to)
  {
    // one column behind the creature, on the bottom row or, at the southern edge of
    // the map, on the top row
    if to.y + HALF_HEIGHT < 0x1_0000 then Position(to.x, to.y + HALF_HEIGHT, to.z)
    else Position(from.x, to.y - HALF_HEIGHT, to.z)
  }

  // The grid a rebuild at "at" leaves for tiles inside the map.
  function Rebuilt(walk: Walkable, at: Position): (g: Grid) {
    seq(HEIGHT, y requires 0 <= y < HEIGHT =>
      seq(WIDTH, x requires 0 <= x < WIDTH => CellTile(walk, at, y, x)))
  }

  lemma RebuiltAgrees(walk: Walkable, at: Position)
    ensures Agrees(Rebuilt(walk, at), at, walk)
  {
  }

  // On every southern diagonal step some world, not changed by the step at all, is
  // answered wrongly.
  lemma SouthDiagonalBreaks(from: Position, to: Position)
    requires OneTileStep(from, to) && SouthDiagonal(from, to)
    ensures var walk := OnlyAt(Victim(from, to));
      Agrees(Rebuilt(walk, from), from, walk) &&
      !Agrees(Stepped(Rebuilt(walk, from), walk, from, to), to, walk)
  {
    var walk := OnlyAt(Victim(from, to));
    RebuiltAgrees(walk, from);
    var g := Rebuilt(walk, from);
    var g' := Stepped(g, walk, from, to);
    var p := if to.y + HALF_HEIGHT < 0x1_0000 then Position(from.x, to.y + HALF_HEIGHT, to.z)
             else Position(to.x, to.y - HALF_HEIGHT, to.z);
    SteppedAt(g, walk, from, to, HALF_HEIGHT + p.y - to.y, HALF_WIDTH + p.x - to.x);
    assert Answer(g', to, p) != RebuiltAnswer(walk, to, p);
  }

  // The incremental update agrees with a rebuild for all worlds exactly on the steps
  // that are not southern diagonals.
  lemma StepCorrectExactly(from: Position, to: Position)
    requires OneTileStep(from, to)
    ensures (forall g: Grid, before: Walkable, after: Walkable ::
      Agrees(g, from, before) && ChangedOnlyAt(before, after, to.z, from, to) ==>
      Agrees(Stepped(g, after, from, to), to, after)) <==> !SouthDiagonal(from, to)
  {
    if SouthDiagonal(from, to) {
      SouthDiagonalBreaks(from, to);
      var walk := OnlyAt(Victim(from, to));
      assert ChangedOnlyAt(walk, walk, to.z, from, to);
      assert Agrees(Rebuilt(walk, from), from, walk);
    } else {
      forall g: Grid, before: Walkable, after: Walkable |
        Agrees(g, from, before) && ChangedOnlyAt(before, after, to.z, from, to)
        ensures Agrees(Stepped(g, after, from, to), to, after)
      {
        StepMatchesRebuild(g, before, after, from, to);
      }
    }
  }

  // ---------- With a signed distance ----------

  // What the columns would be if the distance were the signed old minus new that the test
  // for dy < 0 expects: a step south then leaves out the last row instead of the first.
  function SignedColumn(g: Grid, walk: Walkable, from: Position, to: Position, y: int, x: int): bool
    requires InGrid(y, x)
  {
    var dy := from.y - to.y;
    var starty, endy := if dy > 0 then dy else 0, HEIGHT - 1 + if dy < 0 then dy else 0;
    if from.x < to.x then
      if x == WIDTH - 1 then CellTile(walk, to, y, x)
      else RowShifted(g, walk, from, to, y, if starty <= y <= endy then x + 1 else x)
    else if to.x < from.x then
      if x == 0 then CellTile(walk, to, y, x)
      else RowShifted(g, walk, from, to, y, if starty <= y <= endy then x - 1 else x)
    else
      RowShifted(g, walk, from, to, y, x)
  }

  function SignedCell(g: Grid, walk: Walkable, from: Position, to: Position, y: int, x: int): bool
    requires InGrid(y, x)
  {
    if Near(to, from) && y == HALF_HEIGHT + from.y - to.y && x == HALF_WIDTH + from.x - to.x
    then walk(from)
    else SignedColumn(g, walk, from, to, y, x)
  }

  function SignedStepped(g: Grid, walk: Walkable, from: Position, to: Position): Grid {
    seq(HEIGHT, y requires 0 <= y < HEIGHT =>
      seq(WIDTH, x requires 0 <= x < WIDTH => SignedCell(g, walk, from, to, y, x)))
  }

  lemma SignedAt(g: Grid, walk: Walkable, from: Position, to: Position, y: int, x: int)
    requires InGrid(y, x)
    ensures SignedStepped(g, walk, from, to)[y][x] == SignedCell(g, walk, from, to, y, x)
  {
  }

  // The two differ on southern diagonals only.
  lemma SignedSameExceptSouth(g: Grid, walk: Walkable, from: Position, to: Position)
    requires OneTileStep(from, to) && !SouthDiagonal(from, to)
    ensures SignedStepped(g, walk, from, to) == Stepped(g, walk, from, to)
  {
    forall y, x | InGrid(y, x)
      ensures SignedStepped(g, walk, from, to)[y][x] == Stepped(g, walk, from, to)[y][x]
    {
      SteppedAt(g, walk, from, to, y, x);
      SignedAt(g, walk, from, to, y, x);
    }
    SameGrid(SignedStepped(g, walk, from, to), Stepped(g, walk, from, to));
  }

  lemma SignedCellMatches(g: Grid, before: Walkable, after: Walkable, from: Position, to: Position, p: Position)
    requires OneTileStep(from, to) && SouthDiagonal(from, to)
    requires Agrees(g, from, before) && ChangedOnlyAt(before, after, to.z, from, to)
    requires Near(to, p) && p != to
    ensures SignedCell(g, after, from, to, HALF_HEIGHT + p.y - to.y, HALF_WIDTH + p.x - to.x) == after(p)
  {
    if Near(from, p) && p != from {
      OldCell(g, before, after, from, to, p);
    }
  }

  lemma SignedSouth(g: Grid, before: Walkable, after: Walkable, from: Position, to: Position)
    requires OneTileStep(from, to) && SouthDiagonal(from, to)
    requires Agrees(g, from, before) && ChangedOnlyAt(before, after, to.z, from, to)
    ensures forall p: Position | Near(to, p) && p != to :: Lookup(SignedStepped(g, after, from, to), to, p) == after(p)
  {
    forall p: Position | Near(to, p) && p != to
      ensures Lookup(SignedStepped(g, after, from, to), to, p) == after(p)
    {
      SignedAt(g, after, from, to, HALF_HEIGHT + p.y - to.y, HALF_WIDTH + p.x - to.x);
      SignedCellMatches(g, before, after, from, to, p);
    }
  }

  // Then all eight directions agree with a rebuild.
  lemma SignedMatchesRebuild(g: Grid, before: Walkable, after: Walkable, from: Position, to: Position)
    requires OneTileStep(from, to)
    requires Agrees(g, from, before) && ChangedOnlyAt(before, after, to.z, from, to)
    ensures Agrees(SignedStepped(g, after, from, to), to, after)
  {
    if SouthDiagonal(from, to) {
      SignedSouth(g, before, after, from, to);
    } else {
      SignedSameExceptSouth(g, after, from, to);
      StepMatchesRebuild(g, before, after, from, to);
    }
  }

  // ---------- Southern diagonals, world by world ----------

  predicate LevelAt(walk: Walkable, x: int, y: int, z: int) {
    TileAt(walk, x, y, z) == TileAt(walk, x + 1, y, z)
  }

  // Neighbouring tiles of one row are equally walkable across the viewport columns at x.
  ghost predicate LevelRow(walk: Walkable, x: int, y: int, z: int) {
    forall i | x - HALF_WIDTH <= i < x + HALF_WIDTH :: LevelAt(walk, i, y, z)
  }

  lemma LevelRowAt(walk: Walkable, x: int, y: int, z: int, i: int)
    requires LevelRow(walk, x, y, z) && x - HALF_WIDTH <= i < x + HALF_WIDTH
    ensures LevelAt(walk, i, y, z)
  {
  }

  predicate Inside(at: Position) {
    HALF_WIDTH <= at.x < 0x1_0000 - HALF_WIDTH && HALF_HEIGHT <= at.y < 0x1_0000 - HALF_HEIGHT
  }

  // Where a cell comes from on a southern diagonal
  lemma SouthDiagonalColumns(g: Grid, walk: Walkable, from: Position, to: Position, y: int, x: int)
    requires OneTileStep(from, to) && SouthDiagonal(from, to) && InGrid(y, x)
    requires x != (if from.x < to.x then WIDTH - 1 else 0) && !(y == HALF_HEIGHT && x == HALF_WIDTH)
    ensures var shift := if y == 0 then 0 else to.x - from.x;
      InGrid(y, x + shift) &&
      ColumnShifted(g, walk, from, to, y, x) ==
        if y == HEIGHT - 1 then CellTile(walk, to, HEIGHT - 1, x + shift) else g[y + 1][x + shift]
  {
  }

  // What a southern diagonal step leaves: the top row keeps the columns of the old
  // viewport, the bottom row is read for the new one and then shifted once more.
  lemma SouthDiagonalCells(g: Grid, before: Walkable, after: Walkable, from: Position, to: Position, y: int, x: int)
    requires OneTileStep(from, to) && SouthDiagonal(from, to) && Inside(from) && Inside(to)
    requires Agrees(g, from, before) && ChangedOnlyAt(before, after, to.z, from, to)
    requires InGrid(y, x) && x != (if from.x < to.x then WIDTH - 1 else 0)
    requires !(y == HALF_HEIGHT && x == HALF_WIDTH)
    ensures Stepped(g, after, from, to)[y][x] ==
      if y == 0 then TileAt(after, from.x + x - HALF_WIDTH, to.y - HALF_HEIGHT, to.z)
      else if y == HEIGHT - 1 then TileAt(after, to.x + (to.x - from.x) + x - HALF_WIDTH, to.y + HALF_HEIGHT, to.z)
      else CellTile(after, to, y, x)
  {
    SteppedAt(g, after, from, to, y, x);
    SouthDiagonalColumns(g, after, from, to, y, x);
    if y < HEIGHT - 1 {
      var shift := if y == 0 then 0 else to.x - from.x;
      var p := Position(from.x + x + shift - HALF_WIDTH, from.y + y + 1 - HALF_HEIGHT, to.z);
      if p != from {
        OldCell(g, before, after, from, to, p);
      }
    }
  }

  // Away from the edge of the map, a southern diagonal step agrees with a rebuild exactly
  // when the row above the view is level over the old columns and the bottom row over the new.
  lemma SouthDiagonalExactly(g: Grid, before: Walkable, after: Walkable, from: Position, to: Position)
    requires OneTileStep(from, to) && SouthDiagonal(from, to) && Inside(from) && Inside(to)
    requires Agrees(g, from, before) && ChangedOnlyAt(before, after, to.z, from, to)
    ensures Agrees(Stepped(g, after, from, to), to, after) <==>
      LevelRow(after, from.x, to.y - HALF_HEIGHT, to.z) && LevelRow(after, to.x, to.y + HALF_HEIGHT, to.z)
  {
    if Agrees(Stepped(g, after, from, to), to, after) {
      AgreeingRowsAreLevel(g, before, after, from, to);
    }
    if LevelRow(after, from.x, to.y - HALF_HEIGHT, to.z) && LevelRow(after, to.x, to.y + HALF_HEIGHT, to.z) {
      LevelRowsAgree(g, before, after, from, to);
    }
  }

  lemma LevelRowsAgree(g: Grid, before: Walkable, after: Walkable, from: Position, to: Position)
    requires OneTileStep(from, to) && SouthDiagonal(from, to) && Inside(from) && Inside(to)
    requires Agrees(g, from, before) && ChangedOnlyAt(before, after, to.z, from, to)
    requires LevelRow(after, from.x, to.y - HALF_HEIGHT, to.z) && LevelRow(after, to.x, to.y + HALF_HEIGHT, to.z)
    ensures Agrees(Stepped(g, after, from, to), to, after)
  {
    forall y, x | InGrid(y, x) && !(y == HALF_HEIGHT && x == HALF_WIDTH)
      ensures Stepped(g, after, from, to)[y][x] == CellTile(after, to, y, x)
    {
      LevelRowsCell(g, before, after, from, to, y, x);
    }
    CellsAgree(Stepped(g, after, from, to), to, after);
  }

  lemma LevelRowsCell(g: Grid, before: Walkable, after: Walkable, from: Position, to: Position, y: int, x: int)
    requires OneTileStep(from, to) && SouthDiagonal(from, to) && Inside(from) && Inside(to)
    requires Agrees(g, from, before) && ChangedOnlyAt(before, after, to.z, from, to)
    requires LevelRow(after, from.x, to.y - HALF_HEIGHT, to.z) && LevelRow(after, to.x, to.y + HALF_HEIGHT, to.z)
    requires InGrid(y, x) && !(y == HALF_HEIGHT && x == HALF_WIDTH)
    ensures Stepped(g, after, from, to)[y][x] == CellTile(after, to, y, x)
  {
    var first := if from.x < to.x then 0 else 1;
    if x == (if from.x < to.x then WIDTH - 1 else 0) {
      SteppedAt(g, after, from, to, y, x);
    } else {
      SouthDiagonalCells(g, before, after, from, to, y, x);
      if y == 0 {
        LevelRowAt(after, from.x, to.y - HALF_HEIGHT, to.z, from.x + x - HALF_WIDTH - first);
      } else if y == HEIGHT - 1 {
        LevelRowAt(after, to.x, to.y + HALF_HEIGHT, to.z, to.x + x - HALF_WIDTH - first);
      }
    }
  }

  lemma AgreeingRowsAreLevel(g: Grid, before: Walkable, after: Walkable, from: Position, to: Position)
    requires OneTileStep(from, to) && SouthDiagonal(from, to) && Inside(from) && Inside(to)
    requires Agrees(g, from, before) && ChangedOnlyAt(before, after, to.z, from, to)
    requires Agrees(Stepped(g, after, from, to), to, after)
    ensures LevelRow(after, from.x, to.y - HALF_HEIGHT, to.z) && LevelRow(after, to.x, to.y + HALF_HEIGHT, to.z)
  {
    var top, bottom := to.y - HALF_HEIGHT, to.y + HALF_HEIGHT;
    var first := if from.x < to.x then 0 else 1;
    forall i | from.x - HALF_WIDTH <= i < from.x + HALF_WIDTH
      ensures LevelAt(after, i, top, to.z)
    {
      var x := i - from.x + HALF_WIDTH + first;
      SouthDiagonalCells(g, before, after, from, to, 0, x);
      AgreesOnCell(Stepped(g, after, from, to), to, after, 0, x);
    }
    forall i | to.x - HALF_WIDTH <= i < to.x + HALF_WIDTH
      ensures LevelAt(after, i, bottom, to.z)
    {
      var x := i - to.x + HALF_WIDTH + first;
      SouthDiagonalCells(g, before, after, from, to, HEIGHT - 1, x);
      AgreesOnCell(Stepped(g, after, from, to), to, after, HEIGHT - 1, x);
    }
  }

  lemma AgreesOnCell(g: Grid, at: Position, walk: Walkable, y: int, x: int)
    requires Inside(at) && Agrees(g, at, walk)
    requires InGrid(y, x) && !(y == HALF_HEIGHT && x == HALF_WIDTH)
    ensures g[y][x] == CellTile(walk, at, y, x)
  {
    var p := Position(at.x + x - HALF_WIDTH, at.y + y - HALF_HEIGHT, at.z);
    assert Answer(g, at, p) == RebuiltAnswer(walk, at, p);
  }

  lemma CellsAgree(g: Grid, at: Position, walk: Walkable)
    requires Inside(at)
    requires forall y, x | InGrid(y, x) && !(y == HALF_HEIGHT && x == HALF_WIDTH) :: g[y][x] == CellTile(walk, at, y, x)
    ensures Agrees(g, at, walk)
  {
    forall p: Position | Near(at, p) && p != at
      ensures Lookup(g, at, p) == walk(p)
    {
      assert InGrid(HALF_HEIGHT + p.y - at.y, HALF_WIDTH + p.x - at.x);
    }
  }

  // ---------- Whole runs ----------

  datatype State = State(grid: Grid, at: Position, walk: Walkable)

  // What can happen to a creature with a loaded cache: its own step, a rebuild
  // (teleport or floor change), or a notice that tiles p and q changed.
  datatype Event = Step | Rebuild | Notice(p: Position, q: Position)

  ghost predicate Next(s: State, e: Event, t: State) {
    match e
    case Step =>
      OneTileStep(s.at, t.at) && ChangedOnlyAt(s.walk, t.walk, t.at.z, s.at, t.at) &&
      t.grid == Stepped(s.grid, t.walk, s.at, t.at)
    case Rebuild =>
      Agrees(t.grid, t.at, t.walk)
    case Notice(p, q) =>
      t.at == s.at && ChangedOnlyAt(s.walk, t.walk, t.at.z, p, q) &&
      t.grid == Noticed(s.grid, t.walk, t.at, p, q)
  }

  lemma NoticeMatchesRebuild(g: Grid, before: Walkable, after: Walkable, at: Position, p: Position, q: Position)
    requires Agrees(g, at, before) && ChangedOnlyAt(before, after, at.z, p, q)
    ensures Agrees(Noticed(g, after, at, p, q), at, after)
  {
    forall r: Position
      ensures Answer(Noticed(g, after, at, p, q), at, r) == RebuiltAnswer(after, at, r)
    {
      assert Answer(g, at, r) == RebuiltAnswer(before, at, r);
      if Near(at, r) {
        var y, x := HALF_HEIGHT + r.y - at.y, HALF_WIDTH + r.x - at.x;
        assert Noticed(g, after, at, p, q)[y][x] == NoticedCell(g, after, at, p, q, y, x);
      }
    }
  }

  // In every run without a southern diagonal step, after any number of steps,
  // teleports and notices, every answer is that of a cache rebuilt in the current world.
  lemma {:induction false} RunMatchesRebuild(run: seq<State>, events: seq<Event>)
    requires |run| == |events| + 1
    requires Agrees(run[0].grid, run[0].at, run[0].walk)
    requires forall i | 0 <= i < |events| :: Next(run[i], events[i], run[i + 1])
    requires forall i | 0 <= i < |events| && events[i].Step? :: !SouthDiagonal(run[i].at, run[i + 1].at)
    ensures forall i | 0 <= i < |run| :: Agrees(run[i].grid, run[i].at, run[i].walk)
  {
    if events != [] {
      var n := |events| - 1;
      RunMatchesRebuild(run[..n + 1], events[..n]);
      var s, t := run[n], run[n + 1];
      assert run[..n + 1][n] == s;
      assert Next(s, events[n], t);
      match events[n]
      case Step => StepMatchesRebuild(s.grid, s.walk, t.walk, s.at, t.at);
      case Rebuild =>
      case Notice(p, q) => NoticeMatchesRebuild(s.grid, s.walk, t.walk, s.at, p, q);
    }
  }
}
