/** A match between two sides. Each side owns a board and a counter of its ship segments still
    afloat; a shot that hits a side's board takes one from that side's counter, and the turn
    loops stop as soon as one counter reaches zero. The moves typed by the players are a
    sequence given by the caller; the computer's shots are arbitrary cells of the board. */
module Match {
  import opened Board
  import opened Fleet
  import opened Placement

  /** A player, and the board that player owns. */
  datatype Side = One | Two

  predicate AllInBounds(shots: seq<(int, int)>)
  {
    forall c :: c in shots ==> InBounds(c)
  }

  /** The grid after the given shots, fired in order. */
  function Replay(g: Grid, shots: seq<(int, int)>): (r: Grid)
    requires IsGrid(g) && AllInBounds(shots)
    ensures IsGrid(r)
  {
    if |shots| == 0 then g
    else
      assert shots[|shots| - 1] in shots;
      Shot(Replay(g, shots[..|shots| - 1]), shots[|shots| - 1])
  }

  /** The cells targeted by some shot. */
  ghost function Targets(shots: seq<(int, int)>): set<(int, int)>
  {
    set k | 0 <= k < |shots| :: shots[k]
  }

  /** After any sequence of shots, the segments still afloat are exactly the ones that were
      afloat and were never targeted. */
  lemma {:induction false} ReplayAfloat(g: Grid, shots: seq<(int, int)>)
    requires IsGrid(g) && AllInBounds(shots)
    ensures Afloat(Replay(g, shots)) == Afloat(g) - Targets(shots)
    decreases |shots|
  {
    if |shots| == 0 {
      assert Targets(shots) == {};
    } else {
      var init, last := shots[..|shots| - 1], shots[|shots| - 1];
      assert last in shots;
      ReplayAfloat(g, init);
      var r := Replay(g, init);
      assert Replay(g, shots) == Shot(r, last);
      ShotAfloat(r, last);
      TargetsStep(shots);
    }
  }

  lemma TargetsStep(shots: seq<(int, int)>)
    requires |shots| > 0
    ensures Targets(shots) == Targets(shots[..|shots| - 1]) + {shots[|shots| - 1]}
  {
    var init := shots[..|shots| - 1];
    forall c
      ensures c in Targets(shots) <==> c in Targets(init) + {shots[|shots| - 1]}
    {
      if c in Targets(shots) {
        var k :| 0 <= k < |shots| && shots[k] == c;
        if k < |init| {
          assert init[k] == c;
        }
      }
      if c in Targets(init) {
        var k :| 0 <= k < |init| && init[k] == c;
        assert shots[k] == c;
      }
    }
  }

  lemma ReplayStep(g: Grid, shots: seq<(int, int)>, c: (int, int))
    requires IsGrid(g) && AllInBounds(shots) && InBounds(c)
    ensures AllInBounds(shots + [c])
    ensures Replay(g, shots + [c]) == Shot(Replay(g, shots), c)
  {
    assert (shots + [c])[..|shots|] == shots;
  }

  /** The moves of a two-player sequence that fall to one player: those at even positions
      (parity 0) or at odd positions (parity 1). */
  function MovesOf(moves: seq<(int, int)>, parity: int): (mine: seq<(int, int)>)
    ensures forall c :: c in mine ==> c in moves
  {
    if |moves| == 0 then []
    else
      var init := moves[..|moves| - 1];
      assert forall c :: c in init ==> c in moves;
      MovesOf(init, parity) + if (|moves| - 1) % 2 == parity then [moves[|moves| - 1]] else []
  }

  lemma MovesOfStep(moves: seq<(int, int)>, i: int)
    requires 0 <= i < |moves|
    ensures MovesOf(moves[..i + 1], i % 2) == MovesOf(moves[..i], i % 2) + [moves[i]]
    ensures MovesOf(moves[..i + 1], 1 - i % 2) == MovesOf(moves[..i], 1 - i % 2)
  {
    assert moves[..i + 1][..i] == moves[..i];
  }

  lemma AppendPrefix(s: seq<(int, int)>, c: (int, int))
    ensures (s + [c])[..|s|] == s
  {
  }

  lemma PrefixStep(moves: seq<(int, int)>, i: int)
    requires AllInBounds(moves) && 0 <= i < |moves|
    ensures AllInBounds(moves[..i]) && InBounds(moves[i])
    ensures moves[..i + 1] == moves[..i] + [moves[i]]
  {
    assert moves[i] in moves;
  }

  /** One more move of a two-player match is a shot at board two when it falls to player one
      (an even position) and a shot at board one otherwise. */
  lemma PvpStep(g1: Grid, g2: Grid, moves: seq<(int, int)>, i: int)
    requires IsGrid(g1) && IsGrid(g2) && AllInBounds(moves) && 0 <= i < |moves|
    ensures AllInBounds(moves[..i]) && AllInBounds(moves[..i + 1]) && InBounds(moves[i])
    ensures i % 2 == 0 ==>
      Replay(g2, MovesOf(moves[..i + 1], 0)) == Shot(Replay(g2, MovesOf(moves[..i], 0)), moves[i]) &&
      Replay(g1, MovesOf(moves[..i + 1], 1)) == Replay(g1, MovesOf(moves[..i], 1))
    ensures i % 2 == 1 ==>
      Replay(g1, MovesOf(moves[..i + 1], 1)) == Shot(Replay(g1, MovesOf(moves[..i], 1)), moves[i]) &&
      Replay(g2, MovesOf(moves[..i + 1], 0)) == Replay(g2, MovesOf(moves[..i], 0))
  {
    var m := moves[i];
    assert m in moves;
    assert moves[..i + 1] == moves[..i] + [m];
    MovesOfStep(moves, i);
    ReplayStep(g1, MovesOf(moves[..i], 1), m);
    ReplayStep(g2, MovesOf(moves[..i], 0), m);
  }

  /** Consecutive positions alternate between the two players. */
  lemma ParityFlip(i: int)
    ensures (i + 1) % 2 == 0 <==> i % 2 != 0
  {
  }

  /** The grids of both sides after the first moves of a two-player match, player one firing
      first, show a side with no segment afloat. */
  ghost predicate OverAfter(g1: Grid, g2: Grid, moves: seq<(int, int)>)
    requires IsGrid(g1) && IsGrid(g2) && AllInBounds(moves)
  {
    |Afloat(Replay(g1, MovesOf(moves, 1)))| == 0 || |Afloat(Replay(g2, MovesOf(moves, 0)))| == 0
  }

  /** The state of one match: both boards, both counters and the placer that builds boards. */
  class Game {
    var board1: array2<int>
    var board2: array2<int>
    var left1: int
    var left2: int
    var placer: Placer

    /** Each counter is the number of segments afloat on its own board, and no two of the
        boards and the placer's buffer are the same array. */
    ghost predicate Valid()
      reads this, placer, placer.aux, board1, board2
    {
      IsBoard(board1) && IsBoard(board2) && board1 != board2 &&
      placer.Valid() && placer.Idle() && placer.aux != board1 && placer.aux != board2 &&
      left1 == |Afloat(Snapshot(board1))| && left2 == |Afloat(Snapshot(board2))|
    }

    constructor ()
      ensures Valid() && left1 == 0 && left2 == 0
    {
      board1 := new int[TAM, TAM]((i, j) => WATER);
      board2 := new int[TAM, TAM]((i, j) => WATER);
      placer := new Placer();
      left1, left2 := 0, 0;
      new;
      assert Afloat(Snapshot(board1)) == {};
      assert Afloat(Snapshot(board2)) == {};
    }

    /** The match is over: a side has no segment afloat. */
    function Over(): (r: bool)
      requires Valid()
      reads this, placer, placer.aux, board1, board2
      ensures r <==> |Afloat(Snapshot(board1))| == 0 || |Afloat(Snapshot(board2))| == 0
    {
      !(left1 > 0 && left2 > 0)
    }

    /** The side that wins a finished match; side Two is named when both fleets are sunk. */
    function Winner(): (w: Side)
      requires Valid() && Over()
      reads this, placer, placer.aux, board1, board2
      ensures w == Two <==> |Afloat(Snapshot(board1))| == 0
      ensures w == One ==> |Afloat(Snapshot(board2))| == 0
    {
      if left1 == 0 then Two else One
    }

    /** Generates a board for one side and sets that side's counter to the fleet's number of
        segments. When the generation runs out of attempts the game is left as it was. */
    method SetUp(side: Side, maxAttempts: nat) returns (complete: bool)
      requires Valid()
      modifies this, placer, placer.aux
      ensures Valid() && placer == old(placer) && fresh(placer.aux)
      ensures side == One ==> board2 == old(board2) && left2 == old(left2)
      ensures side == Two ==> board1 == old(board1) && left1 == old(left1)
      ensures complete && side == One ==> fresh(board1) && left1 == 35
      ensures complete && side == Two ==> fresh(board2) && left2 == 35
      ensures complete && side == One ==> Generated(Snapshot(board1), true)
      ensures complete && side == Two ==> Generated(Snapshot(board2), true)
      ensures !complete ==> board1 == old(board1) && board2 == old(board2) && left1 == old(left1) && left2 == old(left2)
    {
      var b;
      b, complete := placer.NewBoard(maxAttempts);
      if complete {
        Install(side, b);
      }
    }

    /** Gives side the board b and sets that side's counter to the fleet's number of segments. */
    method Install(side: Side, b: array2<int>)
      requires IsBoard(board1) && IsBoard(board2) && board1 != board2 && IsBoard(b)
      requires placer.Valid() && placer.Idle() && placer.aux != board1 && placer.aux != board2
      requires left1 == |Afloat(Snapshot(board1))| && left2 == |Afloat(Snapshot(board2))|
      requires b != placer.aux && b != board1 && b != board2
      requires |Afloat(Snapshot(b))| == WeightedSum(Counts, Sizes)
      modifies this
      ensures Valid() && placer == old(placer)
      ensures side == One ==> board1 == b && left1 == 35 && board2 == old(board2) && left2 == old(left2)
      ensures side == Two ==> board2 == b && left2 == 35 && board1 == old(board1) && left1 == old(left1)
    {
      var n := CountSegments(Counts, Sizes);
      DefaultFleetSegments();
      if side == One {
        board1, left1 := b, n;
      } else {
        board2, left2 := b, n;
      }
    }

    /** Generates both boards and sets both counters to the fleet's number of segments. */
    method Prepare(maxAttempts: nat) returns (ready: bool)
      requires Valid()
      modifies this, placer, placer.aux
      ensures Valid() && placer == old(placer)
      ensures ready ==> fresh(board1) && fresh(board2) && left1 == 35 && left2 == 35
      ensures ready ==> Generated(Snapshot(board1), true) && Generated(Snapshot(board2), true)
    {
      var c1 := SetUp(One, maxAttempts);
      var c2 := SetUp(Two, maxAttempts);
      ready := c1 && c2;
    }

    /** Fires at the board of side target and takes one from that side's counter exactly when
        the shot hits. The other side's board and counter stay as they were. */
    method ApplyShot(target: Side, x: int, y: int) returns (hit: bool)
      requires Valid() && InBounds((x, y))
      modifies this, board1, board2
      ensures Valid() && board1 == old(board1) && board2 == old(board2) && placer == old(placer)
      ensures target == One ==> hit == IsAfloat(old(board1[x, y])) && left1 == old(left1) - (if hit then 1 else 0)
      ensures target == One ==> Snapshot(board1) == Shot(old(Snapshot(board1)), (x, y))
      ensures target == One ==> Snapshot(board2) == old(Snapshot(board2)) && left2 == old(left2)
      ensures target == Two ==> hit == IsAfloat(old(board2[x, y])) && left2 == old(left2) - (if hit then 1 else 0)
      ensures target == Two ==> Snapshot(board2) == Shot(old(Snapshot(board2)), (x, y))
      ensures target == Two ==> Snapshot(board1) == old(Snapshot(board1)) && left1 == old(left1)
    {
      if target == One {
        hit := Fire(board1, x, y);
        if hit {
          left1 := left1 - 1;
        }
      } else {
        hit := Fire(board2, x, y);
        if hit {
          left2 := left2 - 1;
        }
      }
    }

    /** The move at position turns of a two-player match: player one fires at board two on
        even positions and player two at board one on odd positions. */
    method PvpTurn(ghost g1: Grid, ghost g2: Grid, moves: seq<(int, int)>, turns: nat, turnOne: bool)
      requires Valid() && IsGrid(g1) && IsGrid(g2) && AllInBounds(moves)
      requires turns < |moves| && turnOne == (turns % 2 == 0) && left1 > 0 && left2 > 0
      requires Snapshot(board2) == Replay(g2, MovesOf(moves[..turns], 0))
      requires Snapshot(board1) == Replay(g1, MovesOf(moves[..turns], 1))
      modifies this, board1, board2
      ensures Valid() && board1 == old(board1) && board2 == old(board2) && placer == old(placer)
      ensures AllInBounds(moves[..turns]) && !OverAfter(g1, g2, moves[..turns])
      ensures AllInBounds(moves[..turns + 1])
      ensures Snapshot(board2) == Replay(g2, MovesOf(moves[..turns + 1], 0))
      ensures Snapshot(board1) == Replay(g1, MovesOf(moves[..turns + 1], 1))
    {
      PvpStep(g1, g2, moves, turns);
      assert !OverAfter(g1, g2, moves[..turns]);
      var m := moves[turns];
      var hit := ApplyShot(if turnOne then Two else One, m.0, m.1);
    }

    /** Two players alternate, player one first, each firing at the other's board with the next
        of the given moves, until one side has no segment afloat or the moves run out. */
    method PlayPvp(moves: seq<(int, int)>) returns (turns: nat)
      requires Valid() && AllInBounds(moves)
      modifies this, board1, board2
      ensures Valid() && board1 == old(board1) && board2 == old(board2) && placer == old(placer)
      ensures turns <= |moves|
      ensures Snapshot(board2) == Replay(old(Snapshot(board2)), MovesOf(moves[..turns], 0))
      ensures Snapshot(board1) == Replay(old(Snapshot(board1)), MovesOf(moves[..turns], 1))
      ensures turns == |moves| || Over()
      ensures turns > 0 ==> !OverAfter(old(Snapshot(board1)), old(Snapshot(board2)), moves[..turns - 1])
    {
      ghost var g1, g2 := Snapshot(board1), Snapshot(board2);
      var turnOne := true;
      turns := 0;
      assert moves[..0] == [];
      while turns < |moves| && left1 > 0 && left2 > 0
        invariant Valid() && board1 == old(board1) && board2 == old(board2) && placer == old(placer)
        invariant turns <= |moves| && turnOne == (turns % 2 == 0)
        invariant AllInBounds(moves[..turns])
        invariant Snapshot(board2) == Replay(g2, MovesOf(moves[..turns], 0))
        invariant Snapshot(board1) == Replay(g1, MovesOf(moves[..turns], 1))
        invariant turns > 0 ==> !OverAfter(g1, g2, moves[..turns - 1])
      {
        PvpTurn(g1, g2, moves, turns, turnOne);
        ParityFlip(turns);
        turnOne := !turnOne;
        turns := turns + 1;
      }
    }

    /** One round against the computer: the player fires at board two with the move at
        position turns, then the computer fires at an arbitrary cell of board one, which is
        recorded after its earlier shots cpu. */
    method PveRound(ghost g1: Grid, ghost g2: Grid, moves: seq<(int, int)>, turns: nat, ghost cpu: seq<(int, int)>)
      returns (x: int, y: int)
      requires Valid() && IsGrid(g1) && IsGrid(g2) && AllInBounds(moves) && AllInBounds(cpu)
      requires turns < |moves| && left1 > 0 && left2 > 0
      requires Snapshot(board2) == Replay(g2, moves[..turns])
      requires Snapshot(board1) == Replay(g1, cpu)
      modifies this, board1, board2
      ensures Valid() && board1 == old(board1) && board2 == old(board2) && placer == old(placer)
      ensures AllInBounds(moves[..turns])
      ensures |Afloat(Replay(g1, cpu))| > 0 && |Afloat(Replay(g2, moves[..turns]))| > 0
      ensures InBounds((x, y)) && AllInBounds(moves[..turns + 1]) && AllInBounds(cpu + [(x, y)])
      ensures Snapshot(board2) == Replay(g2, moves[..turns + 1])
      ensures Snapshot(board1) == Replay(g1, cpu + [(x, y)])
    {
      PrefixStep(moves, turns);
      var m := moves[turns];
      ReplayStep(g2, moves[..turns], m);
      var hit := ApplyShot(Two, m.0, m.1);
      x :| 0 <= x < TAM;
      y :| 0 <= y < TAM;
      ReplayStep(g1, cpu, (x, y));
      hit := ApplyShot(One, x, y);
    }

    /** A player against the computer: each round the player fires at board two with the next
        of the given moves and then the computer fires at an arbitrary cell of board one, until
        one side has no segment afloat or the moves run out. cpu records the computer's shots. */
    method PlayPve(moves: seq<(int, int)>) returns (turns: nat, ghost cpu: seq<(int, int)>)
      requires Valid() && AllInBounds(moves)
      modifies this, board1, board2
      ensures Valid() && board1 == old(board1) && board2 == old(board2) && placer == old(placer)
      ensures turns <= |moves| && |cpu| == turns && AllInBounds(cpu)
      ensures Snapshot(board2) == Replay(old(Snapshot(board2)), moves[..turns])
      ensures Snapshot(board1) == Replay(old(Snapshot(board1)), cpu)
      ensures turns == |moves| || Over()
      ensures turns > 0 ==>
        |Afloat(Replay(old(Snapshot(board1)), cpu[..turns - 1]))| > 0 && |Afloat(Replay(old(Snapshot(board2)), moves[..turns - 1]))| > 0
    {
      ghost var g1, g2 := Snapshot(board1), Snapshot(board2);
      turns := 0;
      cpu := [];
      assert moves[..0] == [];
      while turns < |moves| && left1 > 0 && left2 > 0
        invariant Valid() && board1 == old(board1) && board2 == old(board2) && placer == old(placer)
        invariant turns <= |moves| && |cpu| == turns && AllInBounds(cpu)
        invariant AllInBounds(moves[..turns])
        invariant Snapshot(board2) == Replay(g2, moves[..turns])
        invariant Snapshot(board1) == Replay(g1, cpu)
        invariant turns > 0 ==>
          |Afloat(Replay(g1, cpu[..turns - 1]))| > 0 && |Afloat(Replay(g2, moves[..turns - 1]))| > 0
      {
        var x, y := PveRound(g1, g2, moves, turns, cpu);
        AppendPrefix(cpu, (x, y));
        cpu := cpu + [(x, y)];
        turns := turns + 1;
      }
    }
  }
}
