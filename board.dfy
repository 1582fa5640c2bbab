/** The playing grid: cell codes, the in-place shot resolution and the fog-of-war view.
    A board is a TAM x TAM grid of integer codes: 0 is water, 1..5 an untouched segment of a
    ship of that size, 6 a segment that has been hit and 7 a shot that fell in the water. */
module Board {

  /** Side of every board. */
  const TAM: int := 10

  const WATER: int := 0
  const HIT: int := 6
  const MISS: int := 7

  /** The four placement directions, as (row step, column step): up, right, down, left. */
  const Dirs: seq<(int, int)> := [(-1, 0), (0, 1), (1, 0), (0, -1)]

  /** A cell holding a ship segment that has not been hit yet. */
  predicate IsAfloat(v: int) { 1 <= v <= 5 }

  predicate InBounds(c: (int, int)) { 0 <= c.0 < TAM && 0 <= c.1 < TAM }

  predicate IsBoard(a: array2<int>) { a.Length0 == TAM && a.Length1 == TAM }

  function At(a: array2<int>, c: (int, int)): int
    requires IsBoard(a) && InBounds(c)
    reads a
  {
    a[c.0, c.1]
  }

  /** The cell k steps from (x, y) in direction d. */
  function CellAt(x: int, y: int, d: int, k: int): (int, int)
    requires 0 <= d < 4
  {
    (x + Dirs[d].0 * k, y + Dirs[d].1 * k)
  }

  /** The contents of a board as a value, row by row. */
  type Grid = seq<seq<int>>

  predicate IsGrid(g: Grid)
  {
    |g| == TAM && forall i :: 0 <= i < TAM ==> |g[i]| == TAM
  }

  function Get(g: Grid, c: (int, int)): int
    requires IsGrid(g) && InBounds(c)
  {
    g[c.0][c.1]
  }

  /** The grid a board holds in the current state. */
  ghost function Snapshot(a: array2<int>): (g: Grid)
    requires IsBoard(a)
    reads a
    ensures IsGrid(g)
    ensures forall i, j :: 0 <= i < TAM && 0 <= j < TAM ==> g[i][j] == a[i, j]
  {
    seq(TAM, i requires 0 <= i < TAM reads a => seq(TAM, j requires 0 <= j < TAM reads a => a[i, j]))
  }

  /** Two grids that agree on every cell are equal. */
  lemma GridExt(g: Grid, h: Grid)
    requires IsGrid(g) && IsGrid(h)
    requires forall i, j :: 0 <= i < TAM && 0 <= j < TAM ==> g[i][j] == h[i][j]
    ensures g == h
  {
    forall i | 0 <= i < TAM
      ensures g[i] == h[i]
    {
    }
  }

  /** The cells of a grid that still hold an untouched ship segment. */
  ghost function Afloat(g: Grid): set<(int, int)>
    requires IsGrid(g)
  {
    set i, j | 0 <= i < TAM && 0 <= j < TAM && IsAfloat(g[i][j]) :: (i, j)
  }

  /** The cells of a grid that are not water. */
  ghost function Occupied(g: Grid): set<(int, int)>
    requires IsGrid(g)
  {
    set i, j | 0 <= i < TAM && 0 <= j < TAM && g[i][j] != WATER :: (i, j)
  }

  /** What a shot leaves in a cell holding v. */
  function CellAfterShot(v: int): int
  {
    if IsAfloat(v) then HIT else if v == WATER then MISS else v
  }

  /** The grid after a shot at c. */
  function Shot(g: Grid, c: (int, int)): (r: Grid)
    requires IsGrid(g) && InBounds(c)
    ensures IsGrid(r)
  {
    g[c.0 := g[c.0][c.1 := CellAfterShot(Get(g, c))]]
  }

  /** A shot sinks the segment at c, if there is one, and no other. */
  lemma ShotAfloat(g: Grid, c: (int, int))
    requires IsGrid(g) && InBounds(c)
    ensures Afloat(Shot(g, c)) == Afloat(g) - {c}
    ensures |Afloat(Shot(g, c))| == |Afloat(g)| - (if IsAfloat(Get(g, c)) then 1 else 0)
  {
    var r := Shot(g, c);
    forall p | p in Afloat(g) && p != c
      ensures p in Afloat(r)
    {
      assert r[p.0][p.1] == g[p.0][p.1];
    }
    assert Afloat(r) == Afloat(g) - {c};
  }

  /** Firing at the same cell again changes nothing and never scores. */
  lemma RefireIsNoOp(g: Grid, c: (int, int))
    requires IsGrid(g) && InBounds(c)
    ensures Shot(Shot(g, c), c) == Shot(g, c)
    ensures !IsAfloat(Get(Shot(g, c), c))
  {
    var r := Shot(g, c);
    assert CellAfterShot(Get(r, c)) == Get(r, c);
    assert r[c.0][c.1 := Get(r, c)] == r[c.0];
  }

  /** Resolves a shot at (x, y): an untouched segment becomes a hit and the shot scores,
      water becomes a miss, and a cell already resolved stays as it is. */
  method Fire(board: array2<int>, x: int, y: int) returns (hit: bool)
    requires IsBoard(board) && InBounds((x, y))
    modifies board
    ensures hit <==> IsAfloat(old(board[x, y]))
    ensures IsAfloat(old(board[x, y])) ==> board[x, y] == HIT
    ensures old(board[x, y]) == WATER ==> board[x, y] == MISS
    ensures !IsAfloat(old(board[x, y])) && old(board[x, y]) != WATER ==> board[x, y] == old(board[x, y])
    ensures forall i, j :: 0 <= i < TAM && 0 <= j < TAM && (i, j) != (x, y) ==> board[i, j] == old(board[i, j])
    ensures Snapshot(board) == Shot(old(Snapshot(board)), (x, y))
    ensures |Afloat(Snapshot(board))| == |Afloat(old(Snapshot(board)))| - (if hit then 1 else 0)
  {
    ghost var before := Snapshot(board);
    if IsAfloat(board[x, y]) {
      board[x, y] := HIT;
      hit := true;
    } else {
      if board[x, y] == WATER {
        board[x, y] := MISS;
      }
      hit := false;
    }
    GridExt(Snapshot(board), Shot(before, (x, y)));
    ShotAfloat(before, (x, y));
  }

  /** How the opponent sees one cell. */
  datatype FogCell = Unknown | HitMark | MissMark

  /** The fog-of-war view of a cell: only resolved shots are shown. */
  function FogView(v: int): (f: FogCell)
    ensures f == HitMark <==> v == HIT
    ensures f == MissMark <==> v == MISS
  {
    if v == HIT then HitMark else if v == MISS then MissMark else Unknown
  }

  /** The fog view never tells water from an untouched ship, and a shot at an unresolved
      cell always reveals whether it scored. */
  lemma FogRevealsOnlyShots(v: int)
    requires v == WATER || IsAfloat(v)
    ensures FogView(v) == Unknown
    ensures FogView(CellAfterShot(v)) == if IsAfloat(v) then HitMark else MissMark
  {
  }
}
