# Hundir la flota (Battleship): a verified model of the game core

This Dafny project models the core of `src/App.java`, a console Battleship game for a 10 x 10 board.

- **Cell codes.** A board is a grid of integer codes:
  - 0 is water;
  - 1..5 is an untouched segment of a ship of that size;
  - 6 is a hit segment;
  - 7 is a shot that fell in the water.
- **Fleet.** Each side gets five ships of size 1, four of size 2, three of size 3, two of size 4 and one of size 5. That makes 35 segments.
- **Moves.** Players fire at the opponent's board. A side's counter of segments afloat drops by one on every hit. A match ends when one counter reaches zero.

The model has four modules, one per part of the program:

- `Board` (`board.dfy`). It holds the cell codes and the shot resolution `Fire` (`disparar`), which works in place on an `array2<int>`. It also holds the fog-of-war view of a cell, meaning what the opponent is shown. Proofs read a board as a value, a `Grid` (`seq<seq<int>>`), through `Snapshot`.
- `Fleet` (`fleet.dfy`). It holds the ship counts and sizes, the segment count `CountSegments` (`calcularNBarcos`), and the order in which the generator places the ships.
- `Placement` (`placement.dfy`). The class `Placer` owns the working buffer `aux` (`matrizAux`) and holds:
  - the cell check `CheckPosition` (`comprobarPosicion`);
  - the direction search `CheckDirections` (`comprobarDirecciones`), with `FitsInDirection` for its inner loop;
  - the ship writer `CopyShipAt` (`copiarBarcoEn`);
  - the board generator `GenerateBoard` (`generarTablero`), split into `PlaceShip` (one do-while retry loop), `PlaceKind` (one kind of ship) and `TakeBoard` (copy out and reset).

  The ghost predicate `Layout(g, fleet)` says what a generated board is:
  - every ship of `fleet` is painted on `g` with its size as code;
  - every non-water cell belongs to a ship;
  - no two ships share a cell or are 4-neighbours;
  - every code is in 0..5;
  - the number of non-water cells is the fleet's number of segments.
- `Match` (`match.dfy`). The class `Game` holds both boards, both counters (`nBarcos1`, `nBarcos2`) and the placer. It has the set-up (`prepararJuego`), the counter update around each shot, and the two turn loops `PlayPvp` (`jugarPVP`) and `PlayPve` (`jugarPVE`). Its invariant `Valid()` says that each counter equals the number of untouched segments on its own board.

Where a prose description of the game and the code differ, the model follows the code:

- **Separation.** A ship is only kept apart from the others by its 4-neighbours. The free-cell check looks up, right, down and left and nothing else (`src/App.java:374-382`). So ships may touch diagonally, and no diagonal separation is claimed.
- **Shot result.** A shot returns only whether it scored. A miss and a repeated shot at a resolved cell both return false.
- **Simultaneous sinking.** Against the computer, the computer fires even after the player's shot sank the last segment (`src/App.java:242-261`). If both fleets are then sunk, the code names the computer the winner. `Winner` states that case: side `Two` wins when board one has no segment afloat.

## Model

| member | source | states |
|---|---|---|
| Board.Fire | src/App.java:283-292 | An untouched segment becomes 6 and the call returns true. Water becomes 7 and the call returns false. A cell already holding 6 or 7 keeps its code and the call returns false. No other cell changes. The new grid is `Shot` of the old one, with one fewer segment afloat exactly when the shot hit. |
| Board.ShotAfloat | src/App.java:283-292 | A shot removes exactly its target from the set of segments afloat; the count drops by one iff the target was afloat. |
| Board.RefireIsNoOp | src/App.java:283-292 | Firing a second time at the same cell leaves the grid unchanged and never scores. |
| Board.FogView | src/App.java:524-530 | The opponent sees a hit exactly on code 6 and a miss exactly on code 7; every other code is unknown. |
| Board.FogRevealsOnlyShots | src/App.java:524-530 | Water and an untouched segment look the same in the fog view, and a shot at either shows whether it scored. |
| Fleet.CountSegments | src/App.java:172-179 | The loop total equals the sum over all kinds of count times size. |
| Fleet.DefaultFleetSegments | src/App.java:46-51 | For counts 5,4,3,2,1 and sizes 1..5 that sum is 35. |
| Fleet.PlanSegments | src/App.java:334-335 | The sizes placed by the two nested generator loops add up to the same total. |
| Fleet.DefaultPlan | src/App.java:334-335 | The generator places one ship of size 5, then two of size 4, three of size 3, four of size 2 and five of size 1, in that order. |
| Placement.Placer.constructor | src/App.java:41 | The working buffer starts as an all-water 10 x 10 board. |
| Placement.Placer.CheckPosition | src/App.java:365-388 | Returns true iff the cell is on the board, holds water, and each of its on-board 4-neighbours holds water. Off-board cells give false, and the buffer is not changed. |
| Placement.Placer.FitsInDirection | src/App.java:415-420 | Returns true iff every one of the `size` cells from the anchor in that direction passes the cell check. |
| Placement.Placer.CheckDirections | src/App.java:403-432 | Returns -1 iff the anchor fails the cell check or no direction fits. Any other result is a direction in 0..3 along which the whole ship fits. A ship of size 1 on a free anchor gets direction 1. |
| Placement.Placer.CopyShipAt | src/App.java:446-450 | Exactly the `t` cells from the anchor in direction `d` are set to `t`; every other cell keeps its code. |
| Placement.Placer.TakeBoard | src/App.java:345-350 | Returns a fresh board holding the buffer's old contents, not aliased to the buffer. The buffer is replaced by a fresh all-water board. |
| Placement.Placer.PlaceShip | src/App.java:336-341 | When it succeeds, the buffer becomes a layout of the fleet extended with one ship of the requested size. Otherwise the buffer is unchanged. |
| Placement.Placer.PlaceKind | src/App.java:335-342 | The buffer stays a layout; when complete, the ships added are `count` ships of the kind's size. |
| Placement.Placer.GenerateBoard | src/App.java:330-351 | The board returned is fresh, separate from the buffer, and a layout of the ships placed, with every code in 0..5. The buffer is left all water afterwards. When complete, the fleet follows the plan and the board has exactly 35 non-water cells, all afloat. |
| Placement.Placer.NewBoard | src/App.java:330-351 | A generated board is fresh and is a layout of some fleet, of the planned fleet when complete. The buffer is all water again, and a complete board has 35 segments afloat. |
| Placement.GeneratedBoard | src/App.java:330-351 | A completely generated board holds only water and untouched segments, and exactly 35 of its cells are segments. |
| Placement.FreeShipIsApart | src/App.java:365-388 | A ship whose cells all pass the cell check shares no cell with, and is no 4-neighbour of, any ship already painted. |
| Placement.CellsCount | src/App.java:446-450 | A ship covers exactly as many distinct cells as its size. |
| Placement.PaintKeepsLayout | src/App.java:339-341 | Writing a ship whose cells all pass the cell check onto a layout gives a layout of the extended fleet. |
| Placement.FullFleetSegments | src/App.java:334-343 | A layout of the full planned fleet has 35 non-water cells, all of them untouched segments. |
| Match.ReplayAfloat | src/App.java:283-292 | After any sequence of shots, the segments afloat are those that were afloat and were never targeted. |
| Match.Game.constructor | src/App.java:20-36 | Both counters start at zero and match their boards, so neither board holds a segment afloat before set-up. |
| Match.Game.Over | src/App.java:193 | The loop condition fails iff one side has no segment afloat on its board. |
| Match.Game.Winner | src/App.java:222-226 | Side `Two` is named iff board one has nothing afloat. When `One` is named, board two has nothing afloat. |
| Match.Game.SetUp | src/App.java:141-145 | A side set up with a complete board gets a fresh board that is a layout of the planned fleet, and a counter of 35. The other side is untouched, and the counters keep matching the boards. |
| Match.Game.Install | src/App.java:141-145 | The side gets the new board and a counter of 35, and the counters keep matching the boards. The other side is untouched. |
| Match.Game.Prepare | src/App.java:139-145 | After set-up both counters match their boards. When both generations completed, both boards are fresh layouts of the planned fleet and both counters are 35. |
| Match.Game.ApplyShot | src/App.java:203-205 | The target's counter drops by one exactly when the shot hits. The target board becomes `Shot` of the old one. The other side's board and counter are unchanged. |
| Match.Game.PvpTurn | src/App.java:194-219 | An even move is a shot by player one at board two and an odd move a shot by player two at board one. Both boards stay the replay of each player's moves so far. |
| Match.Game.PlayPvp | src/App.java:189-220 | Each board is the replay of the opponent's moves, the moves alternating from player one. The loop stops when the moves run out or the match is over. It was not over before the last move played. |
| Match.Game.PveRound | src/App.java:243-261 | The player's move is fired at board two and an arbitrary in-bounds cell at board one. Before the round both sides had a segment afloat. |
| Match.Game.PlayPve | src/App.java:237-262 | Board two is the replay of the player's moves and board one of the computer's shots. The loop stops when the moves run out or the match is over, and both sides had a segment afloat before the last round. |

## Left out

- Console input and output are not modelled. This covers the menu (`menuJuego`), the prompts, `mostrarTablero` and the printing in `mostrarJugador1` and `mostrarJugador2`. The ANSI colours and the win messages are left out too. Only the fog-of-war classification of a cell is kept, as `FogView`, and the winner is kept as `Winner`.
- `main` and the dispatch from the menu to a game mode are not modelled. They are pure glue.
- The players' typed coordinates become a finite sequence `moves` given by the caller. So the turn loops also stop when that sequence runs out.
- Every random choice is an arbitrary choice (`:|`). This covers the generator's anchors, the pick among viable directions and the computer's shots. No distribution is modelled.
- Placement.Placer.PlaceShip: the source's do-while retry has no bound. The model draws at most `maxAttempts` anchors per ship; when they run out, generation reports `complete == false` instead of looping forever.
- Match.Game.SetUp: a side whose generation ran out of attempts keeps its old board and counter.
- Placement.Placer.CheckDirections: the direction returned is some viable one. It never names which one the random pick would choose.
- Match.Game.PlayPvp: the stopping rule is stated for the last move played, not for every earlier prefix. Segments afloat never come back, so the last move covers the earlier ones.
- `cantarDisparo` is left out. It is an unimplemented stub that always returns false.
- Board.Fire: shots outside the board are a precondition. The source does not check them and would throw.
- Match.Game.PlayPvp: requires every cell of the move sequence to be on the board, including moves after the match ends, which the source never reads.
- Match.Game.PlayPve: requires every cell of the move sequence to be on the board, including moves after the match ends, which the source never reads.
- Each board is one `array2<int>`. Java's `int[][]` rows are separate arrays, but row aliasing is not modelled; the copy-out clones every row, so no row is shared.
- Java `int` overflow is not modelled. The counters stay between 0 and 35.
