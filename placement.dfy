/** Fleet placement. Ships are written into a working buffer (the placer's aux board), one at a
    time, from the largest kind to the smallest. A ship may only be committed where every one of
    its cells is water and has no non-water 4-neighbour on the board; diagonal contact is not
    checked. The buffer is then copied into a fresh board and reset to water. */
module Placement {
  import opened Board
  import opened Fleet

  /** A committed ship: its anchor cell, the index of its direction in Dirs and its size. */
  datatype Ship = Ship(row: int, col: int, dir: int, size: int) {

    predicate WellFormed() { 0 <= dir < 4 && 1 <= size <= 5 }

    /** The k-th cell of the ship, counted from the anchor. */
    function Cell(k: int): (int, int)
      requires 0 <= dir < 4
    {
      CellAt(row, col, dir, k)
    }

    ghost function Cells(): set<(int, int)>
      requires 0 <= dir < 4
    {
      CellsFrom(row, col, dir, size)
    }
  }

  /** The first n cells from (x, y) in direction d. */
  ghost function CellsFrom(x: int, y: int, d: int, n: int): set<(int, int)>
    requires 0 <= d < 4
  {
    set k | 0 <= k < n :: CellAt(x, y, d, k)
  }

  /** The 4-neighbour of c in direction d. */
  function Step(c: (int, int), d: int): (int, int)
    requires 0 <= d < 4
  {
    (c.0 + Dirs[d].0, c.1 + Dirs[d].1)
  }

  /** p and q are the same cell or 4-neighbours. */
  predicate Touching(p: (int, int), q: (int, int))
  {
    (p.0 == q.0 && -1 <= p.1 - q.1 <= 1) || (p.1 == q.1 && -1 <= p.0 - q.0 <= 1)
  }

  /** The direction that leads from a cell to the 4-neighbour q. */
  function NeighbourDir(p: (int, int), q: (int, int)): (d: int)
    requires Touching(p, q) && p != q
    ensures 0 <= d < 4 && q == Step(p, d)
  {
    if q.0 == p.0 - 1 then 0 else if q.1 == p.1 + 1 then 1 else if q.0 == p.0 + 1 then 2 else 3
  }

  /** The neighbour of c in direction d is off the board or water. */
  predicate NeighbourClear(g: Grid, c: (int, int), d: int)
    requires IsGrid(g) && 0 <= d < 4
  {
    InBounds(Step(c, d)) ==> Get(g, Step(c, d)) == WATER
  }

  /** A cell where a ship segment may go: on the board, water, and with only water around it
      (up, right, down, left). */
  predicate Free(g: Grid, c: (int, int))
    requires IsGrid(g)
  {
    InBounds(c) && Get(g, c) == WATER && forall d :: 0 <= d < 4 ==> NeighbourClear(g, c, d)
  }

  /** Every cell of a ship of the given size anchored at (x, y) in direction d is free. */
  predicate Viable(g: Grid, x: int, y: int, d: int, size: int)
    requires IsGrid(g) && 0 <= d < 4
  {
    forall k :: 0 <= k < size ==> Free(g, CellAt(x, y, d, k))
  }

  ghost predicate Shaped(fleet: seq<Ship>)
  {
    forall k :: 0 <= k < |fleet| ==> fleet[k].WellFormed()
  }

  /** No two cells of different ships are the same cell or 4-neighbours. */
  ghost predicate Separated(fleet: seq<Ship>)
    requires Shaped(fleet)
  {
    forall k, l, m, n :: 0 <= k < l < |fleet| && 0 <= m < fleet[k].size && 0 <= n < fleet[l].size ==>
      !Touching(fleet[k].Cell(m), fleet[l].Cell(n))
  }

  /** Every cell of every ship is on the board and holds that ship's size. */
  ghost predicate Painted(g: Grid, fleet: seq<Ship>)
    requires IsGrid(g) && Shaped(fleet)
  {
    forall k, m :: 0 <= k < |fleet| && 0 <= m < fleet[k].size ==>
      InBounds(fleet[k].Cell(m)) && Get(g, fleet[k].Cell(m)) == fleet[k].size
  }

  /** c is a cell of some ship of fleet. */
  ghost predicate OnFleet(fleet: seq<Ship>, c: (int, int))
    requires Shaped(fleet)
  {
    exists k, m :: 0 <= k < |fleet| && 0 <= m < fleet[k].size && fleet[k].Cell(m) == c
  }

  /** Every cell that is not water belongs to some ship. */
  ghost predicate Covered(g: Grid, fleet: seq<Ship>)
    requires IsGrid(g) && Shaped(fleet)
  {
    forall i, j :: 0 <= i < TAM && 0 <= j < TAM && g[i][j] != WATER ==> OnFleet(fleet, (i, j))
  }

  /** Every cell holds water or an untouched segment. */
  ghost predicate Unshot(g: Grid)
    requires IsGrid(g)
  {
    forall i, j :: 0 <= i < TAM && 0 <= j < TAM ==> 0 <= g[i][j] <= 5
  }

  function SizesOf(fleet: seq<Ship>): seq<int>
  {
    seq(|fleet|, k requires 0 <= k < |fleet| => fleet[k].size)
  }

  /** The grid holds exactly the ships of fleet, pairwise separated, as codes 0..5, and its number
      of non-water cells is the fleet's number of segments. */
  ghost predicate Layout(g: Grid, fleet: seq<Ship>)
    requires IsGrid(g)
  {
    Shaped(fleet) && Separated(fleet) && Painted(g, fleet) && Covered(g, fleet) && Unshot(g) &&
    |Occupied(g)| == Sum(SizesOf(fleet))
  }

  /** A board the generator can hand out: a layout of some fleet, and of the planned fleet
      when the generation completed. */
  ghost predicate Generated(g: Grid, complete: bool)
    requires IsGrid(g)
  {
    exists fleet :: Layout(g, fleet) && (complete ==> SizesOf(fleet) == PlanFrom(Counts, Sizes, 0))
  }

  /** The grid with the size of s written into each of its cells. */
  ghost function Paint(g: Grid, s: Ship): (r: Grid)
    requires IsGrid(g) && 0 <= s.dir < 4
    ensures IsGrid(r)
    ensures forall i, j :: 0 <= i < TAM && 0 <= j < TAM ==>
      r[i][j] == if (i, j) in s.Cells() then s.size else g[i][j]
  {
    seq(TAM, i requires 0 <= i < TAM => seq(TAM, j requires 0 <= j < TAM =>
      if (i, j) in s.Cells() then s.size else g[i][j]))
  }

  lemma CellAtInjective(x: int, y: int, d: int, k: int, l: int)
    requires 0 <= d < 4 && CellAt(x, y, d, k) == CellAt(x, y, d, l)
    ensures k == l
  {
    assert Dirs[d] == (-1, 0) || Dirs[d] == (0, 1) || Dirs[d] == (1, 0) || Dirs[d] == (0, -1);
  }

  /** A ship covers as many cells as its size. */
  lemma {:induction false} CellsCount(s: Ship)
    requires 0 <= s.dir < 4 && s.size >= 0
    ensures |s.Cells()| == s.size
    decreases s.size
  {
    if s.size == 0 {
      assert s.Cells() == {};
    } else {
      var t := Ship(s.row, s.col, s.dir, s.size - 1);
      CellsCount(t);
      var last := s.Cell(s.size - 1);
      assert CellsFrom(s.row, s.col, s.dir, s.size) == CellsFrom(s.row, s.col, s.dir, s.size - 1) + {last};
      forall k | 0 <= k < t.size
        ensures t.Cell(k) != last
      {
        if t.Cell(k) == last {
          CellAtInjective(s.row, s.col, s.dir, k, s.size - 1);
        }
      }
      assert last !in t.Cells();
    }
  }

  /** Adding a ship to the fleet adds its size at the end of the fleet's sizes. */
  lemma SizesOfAppend(fleet: seq<Ship>, s: Ship)
    ensures SizesOf(fleet + [s]) == SizesOf(fleet) + [s.size]
    ensures Sum(SizesOf(fleet + [s])) == Sum(SizesOf(fleet)) + s.size
  {
    var z := SizesOf(fleet) + [s.size];
    assert SizesOf(fleet + [s]) == z;
    assert z[..|z| - 1] == SizesOf(fleet);
  }

  /** Placing one more ship of the kind being placed extends the run of that kind by one. */
  lemma PlanGrows(placed: seq<Ship>, s: Ship, j: nat)
    requires SizesOf(placed) == Repeat(s.size, j)
    ensures SizesOf(placed + [s]) == Repeat(s.size, j + 1)
  {
    SizesOfAppend(placed, s);
  }

  lemma SizesOfConcat(a: seq<Ship>, b: seq<Ship>)
    ensures SizesOf(a + b) == SizesOf(a) + SizesOf(b)
  {
    assert |SizesOf(a + b)| == |SizesOf(a) + SizesOf(b)|;
    forall k | 0 <= k < |a + b|
      ensures SizesOf(a + b)[k] == (SizesOf(a) + SizesOf(b))[k]
    {
      if k < |a| {
        assert (a + b)[k] == a[k];
      } else {
        assert (a + b)[k] == b[k - |a|];
      }
    }
  }

  /** No cell of s is the same as, or a 4-neighbour of, a cell of a ship of fleet. */
  ghost predicate ApartFrom(fleet: seq<Ship>, s: Ship)
    requires Shaped(fleet) && 0 <= s.dir < 4
  {
    forall k, m, n :: 0 <= k < |fleet| && 0 <= m < fleet[k].size && 0 <= n < s.size ==>
      !Touching(fleet[k].Cell(m), s.Cell(n))
  }

  /** Every on-board cell that is, or touches, a free cell is water. */
  lemma FreeNeighbourhood(g: Grid, p: (int, int), q: (int, int))
    requires IsGrid(g) && Free(g, p)
    ensures Touching(p, q) && InBounds(q) ==> Get(g, q) == WATER
  {
    if Touching(p, q) && InBounds(q) && p != q {
      var d := NeighbourDir(p, q);
      assert NeighbourClear(g, p, d);
    }
  }

  /** A ship whose cells are all free keeps clear of every ship painted on the grid. */
  lemma FreeShipIsApart(g: Grid, fleet: seq<Ship>, s: Ship)
    requires IsGrid(g) && Shaped(fleet) && 0 <= s.dir < 4 && Painted(g, fleet)
    requires Viable(g, s.row, s.col, s.dir, s.size)
    ensures ApartFrom(fleet, s)
  {
    forall k, m, n | 0 <= k < |fleet| && 0 <= m < fleet[k].size && 0 <= n < s.size
      ensures !Touching(fleet[k].Cell(m), s.Cell(n))
    {
      var p, q := s.Cell(n), fleet[k].Cell(m);
      assert Free(g, CellAt(s.row, s.col, s.dir, n));
      assert Get(g, q) == fleet[k].size;
      FreeNeighbourhood(g, p, q);
    }
  }

  lemma SeparatedExtend(fleet: seq<Ship>, s: Ship)
    requires Shaped(fleet) && s.WellFormed() && Separated(fleet) && ApartFrom(fleet, s)
    ensures Shaped(fleet + [s]) && Separated(fleet + [s])
  {
    var f := fleet + [s];
    forall k, l, m, n | 0 <= k < l < |f| && 0 <= m < f[k].size && 0 <= n < f[l].size
      ensures !Touching(f[k].Cell(m), f[l].Cell(n))
    {
      assert f[k] == fleet[k];
      if l < |fleet| {
        assert f[l] == fleet[l];
      }
    }
  }

  /** The cells of a ship whose cells are all free are water. */
  lemma FreeShipOnWater(g: Grid, s: Ship)
    requires IsGrid(g) && 0 <= s.dir < 4
    requires Viable(g, s.row, s.col, s.dir, s.size)
    ensures Occupied(g) !! s.Cells()
  {
    forall c | c in s.Cells()
      ensures c !in Occupied(g)
    {
      var n :| 0 <= n < s.size && CellAt(s.row, s.col, s.dir, n) == c;
      assert Free(g, CellAt(s.row, s.col, s.dir, n));
    }
  }

  /** A ship whose cells are all free lies on the board. */
  lemma ViableInBounds(g: Grid, x: int, y: int, d: int, size: int)
    requires IsGrid(g) && 0 <= d < 4 && Viable(g, x, y, d, size)
    ensures forall k :: 0 <= k < size ==> InBounds(CellAt(x, y, d, k))
  {
    forall k | 0 <= k < size
      ensures InBounds(CellAt(x, y, d, k))
    {
      assert Free(g, CellAt(x, y, d, k));
    }
  }

  /** Painting keeps every earlier ship painted, provided the new ship lies on water. */
  lemma PaintKeepsPainted(g: Grid, fleet: seq<Ship>, s: Ship)
    requires IsGrid(g) && Shaped(fleet) && s.WellFormed()
    requires Painted(g, fleet) && Occupied(g) !! s.Cells()
    requires forall k :: 0 <= k < s.size ==> InBounds(s.Cell(k))
    ensures Shaped(fleet + [s]) && Painted(Paint(g, s), fleet + [s])
  {
    var f, r := fleet + [s], Paint(g, s);
    forall k, m | 0 <= k < |f| && 0 <= m < f[k].size
      ensures InBounds(f[k].Cell(m)) && Get(r, f[k].Cell(m)) == f[k].size
    {
      if k < |fleet| {
        var c := fleet[k].Cell(m);
        assert f[k] == fleet[k];
        assert c in Occupied(g);
      } else {
        assert s.Cell(m) in s.Cells();
      }
    }
  }

  lemma CellIndex(s: Ship, c: (int, int)) returns (n: int)
    requires 0 <= s.dir < 4 && c in s.Cells()
    ensures 0 <= n < s.size && s.Cell(n) == c
  {
    n :| 0 <= n < s.size && CellAt(s.row, s.col, s.dir, n) == c;
  }

  lemma CellsFromNext(x: int, y: int, d: int, k: int)
    requires 0 <= d < 4 && 0 <= k
    ensures CellsFrom(x, y, d, k + 1) == CellsFrom(x, y, d, k) + {CellAt(x, y, d, k)}
  {
  }

  /** A cell of the new ship is a cell of the extended fleet. */
  lemma OnFleetNew(fleet: seq<Ship>, s: Ship, c: (int, int))
    requires Shaped(fleet) && s.WellFormed() && c in s.Cells()
    ensures Shaped(fleet + [s]) && OnFleet(fleet + [s], c)
  {
    var f := fleet + [s];
    var n := CellIndex(s, c);
    assert f[|fleet|] == s;
    assert 0 <= |fleet| < |f| && 0 <= n < f[|fleet|].size && f[|fleet|].Cell(n) == c;
  }

  /** A cell of an earlier ship is still a cell of the extended fleet. */
  lemma OnFleetOld(fleet: seq<Ship>, s: Ship, c: (int, int))
    requires Shaped(fleet) && s.WellFormed() && OnFleet(fleet, c)
    ensures Shaped(fleet + [s]) && OnFleet(fleet + [s], c)
  {
    var f := fleet + [s];
    var k, m :| 0 <= k < |fleet| && 0 <= m < fleet[k].size && fleet[k].Cell(m) == c;
    assert f[k] == fleet[k];
    assert 0 <= k < |f| && 0 <= m < f[k].size && f[k].Cell(m) == c;
  }

  /** After painting, every non-water cell belongs to an earlier ship or to the new one. */
  lemma PaintKeepsCovered(g: Grid, fleet: seq<Ship>, s: Ship)
    requires IsGrid(g) && Shaped(fleet) && s.WellFormed()
    requires Covered(g, fleet)
    ensures Shaped(fleet + [s]) && Covered(Paint(g, s), fleet + [s])
  {
    var r := Paint(g, s);
    forall i, j | 0 <= i < TAM && 0 <= j < TAM && r[i][j] != WATER
      ensures OnFleet(fleet + [s], (i, j))
    {
      if (i, j) in s.Cells() {
        OnFleetNew(fleet, s, (i, j));
      } else {
        assert g[i][j] == r[i][j];
        OnFleetOld(fleet, s, (i, j));
      }
    }
  }

  /** Painting a ship of size 1..5 adds exactly its cells to the occupied ones and writes no
      code outside 0..5. */
  lemma PaintAddsCells(g: Grid, s: Ship)
    requires IsGrid(g) && s.WellFormed() && Unshot(g)
    requires forall k :: 0 <= k < s.size ==> InBounds(s.Cell(k))
    ensures Unshot(Paint(g, s))
    ensures Occupied(Paint(g, s)) == Occupied(g) + s.Cells()
  {
    var r := Paint(g, s);
    forall c: (int, int)
      ensures c in Occupied(r) <==> c in Occupied(g) + s.Cells()
    {
      if c in s.Cells() {
        var n :| 0 <= n < s.size && CellAt(s.row, s.col, s.dir, n) == c;
        assert InBounds(s.Cell(n));
      }
    }
    assert Occupied(r) == Occupied(g) + s.Cells();
  }

  /** Writing a ship whose cells are all free onto a layout gives a layout of the fleet
      extended with that ship, one more segment per cell of the ship. */
  lemma PaintKeepsLayout(g: Grid, fleet: seq<Ship>, s: Ship)
    requires IsGrid(g) && s.WellFormed() && Layout(g, fleet)
    requires Viable(g, s.row, s.col, s.dir, s.size)
    ensures Layout(Paint(g, s), fleet + [s])
  {
    FreeShipIsApart(g, fleet, s);
    SeparatedExtend(fleet, s);
    FreeShipOnWater(g, s);
    ViableInBounds(g, s.row, s.col, s.dir, s.size);
    PaintKeepsPainted(g, fleet, s);
    PaintKeepsCovered(g, fleet, s);
    PaintAddsCells(g, s);
    CellsCount(s);
    SizesOfAppend(fleet, s);
  }

  /** On a grid that has not been shot at, the afloat cells are the occupied ones. */
  lemma UnshotAfloat(g: Grid)
    requires IsGrid(g) && Unshot(g)
    ensures Afloat(g) == Occupied(g)
  {
    forall c | c in Occupied(g)
      ensures c in Afloat(g)
    {
      assert 0 <= g[c.0][c.1] <= 5;
    }
  }

  /** A layout of the whole planned fleet has the fleet's number of segments, all afloat. */
  lemma FullFleetSegments(g: Grid, fleet: seq<Ship>)
    requires IsGrid(g) && Layout(g, fleet) && SizesOf(fleet) == PlanFrom(Counts, Sizes, 0)
    ensures |Occupied(g)| == WeightedSum(Counts, Sizes)
    ensures |Afloat(g)| == WeightedSum(Counts, Sizes)
  {
    PlanSegments(Counts, Sizes);
    UnshotAfloat(g);
  }

  /** A completely generated board holds only water and untouched segments, 35 of them. */
  lemma GeneratedBoard(g: Grid)
    requires IsGrid(g) && Generated(g, true)
    ensures forall i, j :: 0 <= i < TAM && 0 <= j < TAM ==> 0 <= g[i][j] <= 5
    ensures |Occupied(g)| == 35 && |Afloat(g)| == 35
  {
    var fleet :| Layout(g, fleet) && SizesOf(fleet) == PlanFrom(Counts, Sizes, 0);
    FullFleetSegments(g, fleet);
    DefaultFleetSegments();
  }

  /** The placer owns the working buffer in which boards are built. */
  class Placer {
    var aux: array2<int>

    ghost predicate Valid()
      reads this
    {
      IsBoard(aux)
    }

    /** Between two generations the buffer is all water. */
    ghost predicate Idle()
      requires Valid()
      reads this, aux
    {
      forall i, j :: 0 <= i < TAM && 0 <= j < TAM ==> aux[i, j] == WATER
    }

    constructor ()
      ensures Valid() && Idle() && fresh(aux)
    {
      aux := new int[TAM, TAM]((i, j) => WATER);
    }

    /** Whether a ship segment may go at (x, y) in the buffer. */
    method CheckPosition(x: int, y: int) returns (free: bool)
      requires Valid()
      ensures free == Free(Snapshot(aux), (x, y))
    {
      free := true;
      if 0 <= x < TAM && 0 <= y < TAM {
        if aux[x, y] != WATER {
          free := false;
        }
        for i := 0 to |Dirs|
          invariant free == (aux[x, y] == WATER && forall d :: 0 <= d < i ==> NeighbourClear(Snapshot(aux), (x, y), d))
        {
          var nx := x + Dirs[i].0;
          var ny := y + Dirs[i].1;
          assert Step((x, y), i) == (nx, ny);
          if 0 <= nx < TAM && 0 <= ny < TAM {
            if aux[nx, ny] != WATER {
              free := false;
            }
          }
          assert NeighbourClear(Snapshot(aux), (x, y), i) <==> !(0 <= nx < TAM && 0 <= ny < TAM && aux[nx, ny] != WATER);
        }
      } else {
        free := false;
      }
    }

    /** Whether every cell of a ship of the given size anchored at (x, y) in direction d is free;
        every cell is checked, as in the inner loop of the direction search. */
    method FitsInDirection(x: int, y: int, d: int, size: int) returns (ok: bool)
      requires Valid() && 0 <= d < 4
      ensures ok == Viable(Snapshot(aux), x, y, d, size)
    {
      ok := true;
      var j := 0;
      while j < size
        modifies {}
        invariant 0 <= j <= if size < 0 then 0 else size
        invariant ok <==> forall k :: 0 <= k < j ==> Free(Snapshot(aux), CellAt(x, y, d, k))
      {
        var c := CellAt(x, y, d, j);
        var free := CheckPosition(c.0, c.1);
        if !free {
          ok := false;
        }
        j := j + 1;
      }
    }

    /** A direction in which a ship of the given size fits from the anchor (x, y), chosen
        arbitrarily among the viable ones, or -1 when there is none. A ship of size 1 always
        gets direction 1. */
    method CheckDirections(x: int, y: int, size: int) returns (dir: int)
      requires Valid()
      ensures dir == -1 <==> !Free(Snapshot(aux), (x, y)) || forall d :: 0 <= d < 4 ==> !Viable(Snapshot(aux), x, y, d, size)
      ensures dir != -1 ==> Free(Snapshot(aux), (x, y)) && 0 <= dir < 4 && Viable(Snapshot(aux), x, y, dir, size)
      ensures Free(Snapshot(aux), (x, y)) && size == 1 ==> dir == 1
    {
      ghost var g := Snapshot(aux);
      var viable := new int[4];
      var count := 0;
      var anchorFree := CheckPosition(x, y);
      if !anchorFree {
        return -1;
      }
      if size == 1 {
        assert CellAt(x, y, 1, 0) == (x, y);
        assert Viable(g, x, y, 1, size);
        return 1;
      }
      for i := 0 to |Dirs|
        invariant 0 <= count <= i
        invariant forall k :: 0 <= k < count ==> 0 <= viable[k] < 4 && Viable(g, x, y, viable[k], size)
        invariant count == 0 <==> forall d :: 0 <= d < i ==> !Viable(g, x, y, d, size)
      {
        var ok := FitsInDirection(x, y, i, size);
        if ok {
          viable[count] := i;
          count := count + 1;
        }
      }
      if count == 0 {
        dir := -1;
      } else {
        var r :| 0 <= r < count;
        dir := viable[r];
      }
    }

    /** Writes the size t into each of the t cells from (x, y) in direction d of the buffer. */
    method CopyShipAt(x: int, y: int, d: int, t: int)
      requires Valid() && 0 <= d < 4
      requires forall k :: 0 <= k < t ==> InBounds(CellAt(x, y, d, k))
      modifies aux
      ensures Snapshot(aux) == Paint(old(Snapshot(aux)), Ship(x, y, d, t))
    {
      ghost var before := Snapshot(aux);
      var k := 0;
      while k < t
        invariant 0 <= k <= if t < 0 then 0 else t
        invariant forall i, j :: 0 <= i < TAM && 0 <= j < TAM ==>
          aux[i, j] == if (i, j) in CellsFrom(x, y, d, k) then t else before[i][j]
      {
        var c := CellAt(x, y, d, k);
        CellsFromNext(x, y, d, k);
        aux[c.0, c.1] := t;
        k := k + 1;
      }
      assert t <= 0 ==> CellsFrom(x, y, d, t) == CellsFrom(x, y, d, 0);
      GridExt(Snapshot(aux), Paint(before, Ship(x, y, d, t)));
    }

    /** Hands out a copy of the buffer as a new board, row by row, and resets the buffer
        to a new all-water board. */
    method TakeBoard() returns (board: array2<int>)
      requires Valid()
      modifies this
      ensures Valid() && Idle() && fresh(aux) && fresh(board) && IsBoard(board) && board != aux
      ensures Snapshot(board) == old(Snapshot(aux))
    {
      ghost var g := Snapshot(aux);
      board := new int[TAM, TAM];
      for r := 0 to TAM
        modifies board
        invariant forall p, q :: 0 <= p < r && 0 <= q < TAM ==> board[p, q] == g[p][q]
      {
        for c := 0 to TAM
          modifies board
          invariant forall p, q :: 0 <= p < r && 0 <= q < TAM ==> board[p, q] == g[p][q]
          invariant forall q :: 0 <= q < c ==> board[r, q] == g[r][q]
        {
          board[r, c] := aux[r, c];
        }
      }
      GridExt(Snapshot(board), g);
      aux := new int[TAM, TAM]((p, q) => WATER);
    }

    /** Places one ship of the given size: arbitrary anchors are drawn until one admits a
        direction, and the ship is written there. At most maxAttempts anchors are drawn; when
        none of them admits a direction the buffer is left as it was and placed is false. */
    method PlaceShip(size: int, maxAttempts: nat, ghost fleet: seq<Ship>) returns (placed: bool, ghost s: Ship)
      requires Valid() && 1 <= size <= 5 && Layout(Snapshot(aux), fleet)
      modifies aux
      ensures Valid()
      ensures placed ==> s.size == size && Layout(Snapshot(aux), fleet + [s])
      ensures !placed ==> Snapshot(aux) == old(Snapshot(aux))
    {
      var x, y, d := 0, 0, -1;
      var tries := 0;
      while d == -1 && tries < maxAttempts
        modifies {}
        invariant d != -1 ==> 0 <= d < 4 && Viable(Snapshot(aux), x, y, d, size)
        decreases maxAttempts - tries
      {
        x :| 0 <= x < TAM;
        y :| 0 <= y < TAM;
        d := CheckDirections(x, y, size);
        tries := tries + 1;
      }
      s := Ship(x, y, d, size);
      if d == -1 {
        placed := false;
      } else {
        ghost var g := Snapshot(aux);
        PaintKeepsLayout(g, fleet, s);
        ViableInBounds(g, x, y, d, size);
        CopyShipAt(x, y, d, size);
        placed := true;
      }
    }

    /** Places count ships of the given size, one after another, stopping at the first one
        that cannot be placed; complete is false in that case. */
    method PlaceKind(size: int, count: int, maxAttempts: nat, ghost fleet: seq<Ship>)
      returns (complete: bool, ghost placed: seq<Ship>)
      requires Valid() && 1 <= size <= 5 && Layout(Snapshot(aux), fleet)
      modifies aux
      ensures Valid() && Layout(Snapshot(aux), fleet + placed)
      ensures complete ==> SizesOf(placed) == Repeat(size, count)
    {
      placed := [];
      complete := true;
      assert fleet + placed == fleet;
      var j := 0;
      while j < count && complete
        invariant 0 <= j && (j <= count || j == 0)
        invariant Valid()
        invariant Layout(Snapshot(aux), fleet + placed)
        invariant complete ==> SizesOf(placed) == Repeat(size, j)
        decreases count - j, if complete then 1 else 0
      {
        var ok;
        ghost var s;
        ok, s := PlaceShip(size, maxAttempts, fleet + placed);
        if !ok {
          complete := false;
        } else {
          PlanGrows(placed, s, j);
          assert fleet + placed + [s] == fleet + (placed + [s]);
          placed := placed + [s];
          j := j + 1;
        }
      }
    }

    /** Builds a board holding the whole fleet, the largest kind first. Each ship is retried
        from fresh arbitrary anchors until one admits a direction; at most maxAttempts anchors
        are tried per ship, and when they run out the board is returned with the ships placed
        so far and complete is false. */
    method GenerateBoard(maxAttempts: nat) returns (board: array2<int>, complete: bool, ghost fleet: seq<Ship>)
      requires Valid() && Idle()
      modifies this, aux
      ensures Valid() && Idle() && fresh(aux) && fresh(board) && IsBoard(board) && board != aux
      ensures Layout(Snapshot(board), fleet)
      ensures complete ==> SizesOf(fleet) == PlanFrom(Counts, Sizes, 0)
      ensures complete ==> |Occupied(Snapshot(board))| == WeightedSum(Counts, Sizes)
      ensures complete ==> |Afloat(Snapshot(board))| == WeightedSum(Counts, Sizes)
    {
      fleet := [];
      complete := true;
      assert Occupied(Snapshot(aux)) == {};
      var i := |Counts| - 1;
      while i >= 0 && complete
        invariant -1 <= i < |Counts|
        invariant Valid() && aux == old(aux)
        invariant Layout(Snapshot(aux), fleet)
        invariant complete ==> SizesOf(fleet) == PlanFrom(Counts, Sizes, i + 1)
      {
        ghost var placed;
        complete, placed := PlaceKind(Sizes[i], Counts[i], maxAttempts, fleet);
        SizesOfConcat(fleet, placed);
        fleet := fleet + placed;
        i := i - 1;
      }
      ghost var g := Snapshot(aux);
      board := TakeBoard();
      if complete {
        FullFleetSegments(g, fleet);
      }
    }

    /** A fresh board from GenerateBoard: a layout, of the planned fleet when complete, with
        the fleet's number of segments afloat. */
    method NewBoard(maxAttempts: nat) returns (board: array2<int>, complete: bool)
      requires Valid() && Idle()
      modifies this, aux
      ensures Valid() && Idle() && fresh(aux) && fresh(board) && IsBoard(board) && board != aux
      ensures Generated(Snapshot(board), complete)
      ensures complete ==> |Afloat(Snapshot(board))| == WeightedSum(Counts, Sizes)
    {
      ghost var fleet;
      board, complete, fleet := GenerateBoard(maxAttempts);
    }
  }
}
