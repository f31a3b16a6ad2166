/**
 * The two boards as objects.  MyBoard owns the player's grid (an array of
 * cells updated in place) and fleet (Ship objects); EnemyBoard is the view of
 * the opponent's board, which only collects the ships the opponent reveals.
 * The abstract Board class of the game shares fields between the two; here
 * each class declares the state it uses (placement validation only ever runs
 * on MyBoard).  Every method is specified by the function of BoardModel that
 * it implements.
 */
module Boards {
  import opened Wrappers
  import opened Cells
  import opened Ships
  import opened Fleets
  import opened Messages
  import opened BoardModel

  class MyBoard {
    const cells: array2<Cell>
    const ships: seq<Ship>
    var playerTurn: bool

    ghost function Grid(): (g: seq<seq<Cell>>)
      reads cells
      requires cells.Length0 == 10 && cells.Length1 == 10
      ensures IsGrid(g)
      ensures forall r, c :: 0 <= r < 10 && 0 <= c < 10 ==> g[r][c] == cells[r, c]
    {
      seq(10, r requires 0 <= r < 10 reads cells => seq(10, c requires 0 <= c < 10 reads cells => cells[r, c]))
    }

    ghost function Shapes(): (r: seq<Placement>)
      reads ships
      ensures |r| == |ships| && forall i :: 0 <= i < |ships| ==> r[i] == ships[i].Shape()
    {
      seq(|ships|, i requires 0 <= i < |ships| reads ships => ships[i].Shape())
    }

    ghost function Fleet(): (r: seq<ShipV>)
      reads ships
      ensures |r| == |ships|
      ensures forall i :: 0 <= i < |ships| ==> r[i] == ShipV(ships[i].Shape(), ships[i].hits)
      ensures Places(r) == Shapes()
    {
      seq(|ships|, i requires 0 <= i < |ships| reads ships => ShipV(ships[i].Shape(), ships[i].hits))
    }

    /** The board as a value. */
    ghost function Value(): BoardV
      reads cells, ships
      requires cells.Length0 == 10 && cells.Length1 == 10
    {
      BoardV(Grid(), Fleet())
    }

    /** A 10 x 10 grid, distinct ship objects of positive size, and the damage invariant. */
    ghost predicate Valid()
      reads cells, ships
    {
      && cells.Length0 == 10 && cells.Length1 == 10
      && (forall i, j :: 0 <= i < j < |ships| ==> ships[i] != ships[j])
      && (forall i :: 0 <= i < |ships| ==> ships[i].size > 0)
      && Consistent(Value())
    }

    /** The player's board, laid out as InitialBoard says. */
    constructor (sizes: seq<int>)
      requires forall i :: 0 <= i < |sizes| ==> sizes[i] > 0
      ensures Valid() && !playerTurn && fresh(cells) && |ships| == |sizes|
      ensures forall i :: 0 <= i < |ships| ==> fresh(ships[i])
      ensures Value() == InitialBoard(sizes)
    {
      var fleet: seq<Ship> := [];
      for i := 0 to |sizes|
        invariant |fleet| == i
        invariant forall j :: 0 <= j < i ==> fresh(fleet[j])
        invariant forall j, k :: 0 <= j < k < i ==> fleet[j] != fleet[k]
        invariant forall j :: 0 <= j < i ==> fleet[j].Shape() == Placement(j, 0, false, sizes[j]) && fleet[j].hits == 0
      {
        var ship := new Ship(sizes[i]);
        ship.UpdatePosition(i, 0, false);
        fleet := fleet + [ship];
      }
      ships := fleet;
      cells := new Cell[10, 10]((r, c) => Untouched);
      playerTurn := false;
      new;
      assert forall r, c :: 0 <= r < 10 && 0 <= c < 10 ==> cells[r, c] == Untouched;
      GridEq(Grid(), EmptyGrid());
      EmptyGridConsistent(Fleet());
    }

    /** The drop handler: ship `i` moves to (row, column), keeping its orientation. */
    method Reposition(i: int, row: int, column: int)
      requires Valid() && 0 <= i < |ships|
      modifies ships[i]
      ensures Valid()
      ensures Value() == Move(old(Value()), i, Placement(row, column, old(ships[i].isVertical), ships[i].size))
    {
      ghost var before := Value();
      ships[i].UpdatePosition(row, column, ships[i].isVertical);
      MoveConsistent(before, i, ships[i].Shape());
      assert Fleet() == Move(before, i, ships[i].Shape()).fleet;
    }

    /** The click handler on a ship: flipShip. */
    method FlipAt(i: int)
      requires Valid() && 0 <= i < |ships|
      modifies ships[i]
      ensures Valid()
      ensures Value() == Move(old(Value()), i, Flip(old(ships[i].Shape())))
    {
      ghost var before := Value();
      ships[i].FlipShip();
      MoveConsistent(before, i, ships[i].Shape());
      assert Fleet() == Move(before, i, ships[i].Shape()).fleet;
    }

    /** allShipsSunk: every ship's hit counter equals its size. */
    predicate AllShipsSunk()
      reads this, ships
      ensures AllShipsSunk() <==> BoardModel.AllShipsSunk(Fleet())
    {
      forall i :: 0 <= i < |ships| ==> ships[i].IsSunk()
    }

    /**
     * boardIsValid: collect the covered cells of all ships, reject a
     * placement with a repeated cell or a cell off the board, otherwise
     * commit it with updateCellData.  The sort-and-scan of the game is
     * replaced by the two predicates it decides (see DuplicateScan).
     */
    method BoardIsValid() returns (valid: bool)
      requires Valid()
      modifies cells, ships
      ensures Valid()
      ensures Validated(valid, Value()) == Validate(old(Value()))
    {
      var allCells := CollectCells();
      var dups := HasDuplicate(allCells);
      var outOfRange := OutOfRange(allCells);
      if dups || outOfRange {
        valid := false;
      } else {
        UpdateCellData();
        valid := true;
      }
    }

    /** The first loop of boardIsValid: the covered cells of all ships, ship by ship. */
    method CollectCells() returns (allCells: seq<Pos>)
      ensures allCells == AllCells(Shapes())
    {
      allCells := [];
      for i := 0 to |ships|
        invariant allCells == AllCells(Shapes()[..i])
      {
        var covered := ships[i].GetCellsCovered();
        assert Shapes()[..i + 1][..i] == Shapes()[..i];
        allCells := allCells + covered;
      }
      assert Shapes()[..|ships|] == Shapes();
    }

    /**
     * updateCellData: clear all 100 cells, then reset each ship's counter
     * and stamp its index on the cells it covers.
     */
    method UpdateCellData()
      requires Valid() && FleetIsValid(Shapes())
      modifies cells, ships
      ensures Valid()
      ensures Value() == Validate(old(Value())).board
    {
      ghost var before := Value();
      assert AllOnBoard(Shapes()) by { FleetIsValidIff(Shapes()); }
      ClearCells();
      StampFleet(Shapes());
      CommitSpec(before, Grid(), Fleet());
    }

    /** The first loop of updateCellData: every cell back to not hit, no ship. */
    method ClearCells()
      requires cells.Length0 == 10 && cells.Length1 == 10
      modifies cells
      ensures forall r, c :: 0 <= r < 10 && 0 <= c < 10 ==> cells[r, c] == Untouched
    {
      for i := 0 to 100
        invariant forall r, c :: 0 <= r < 10 && 0 <= c < 10 && 10 * r + c < i ==> cells[r, c] == Untouched
      {
        cells[i / 10, i % 10] := Untouched;
      }
    }

    /** The second loop of updateCellData: reset each ship's counter and stamp its cells, in fleet order. */
    method StampFleet(ghost places: seq<Placement>)
      requires cells.Length0 == 10 && cells.Length1 == 10
      requires forall i, j :: 0 <= i < j < |ships| ==> ships[i] != ships[j]
      requires places == Shapes() && AllOnBoard(places)
      requires forall r, c :: 0 <= r < 10 && 0 <= c < 10 ==> cells[r, c] == Untouched
      modifies cells, ships
      ensures forall r, c :: 0 <= r < 10 && 0 <= c < 10 ==> cells[r, c] == Cell(false, Stamp(places, |places|, Pos(r, c)))
      ensures forall j :: 0 <= j < |ships| ==> ships[j].Shape() == places[j] && ships[j].hits == 0
    {
      for index := 0 to |ships|
        invariant forall r, c :: 0 <= r < 10 && 0 <= c < 10 ==> cells[r, c] == Cell(false, Stamp(places, index, Pos(r, c)))
        invariant forall j :: 0 <= j < |ships| ==> ships[j].Shape() == places[j]
        invariant forall j :: 0 <= j < index ==> ships[j].hits == 0
      {
        var ship := ships[index];
        ship.hits := 0;
        StampShip(ship, index, places);
      }
    }

    /** The inner loop of updateCellData: ship `index` stamps its index on each cell it covers. */
    method StampShip(ship: Ship, index: int, ghost places: seq<Placement>)
      requires cells.Length0 == 10 && cells.Length1 == 10
      requires 0 <= index < |places| && ship.Shape() == places[index] && OnBoard(places[index])
      requires forall r, c :: 0 <= r < 10 && 0 <= c < 10 ==> cells[r, c] == Cell(false, Stamp(places, index, Pos(r, c)))
      modifies cells
      ensures forall r, c :: 0 <= r < 10 && 0 <= c < 10 ==> cells[r, c] == Cell(false, Stamp(places, index + 1, Pos(r, c)))
    {
      var covered := ship.GetCellsCovered();
      for cell := 0 to |covered|
        invariant forall r, c :: 0 <= r < 10 && 0 <= c < 10 ==>
          cells[r, c] == Cell(false, if Pos(r, c) in covered[..cell] then index else Stamp(places, index, Pos(r, c)))
      {
        var cellPos := covered[cell];
        assert InRange(cellPos);
        cells[cellPos.row, cellPos.column] := cells[cellPos.row, cellPos.column].(shipIndex := index);
        assert covered[..cell + 1] == covered[..cell] + [cellPos];
      }
      assert covered[..|covered|] == covered;
    }

    /**
     * randomize, with the random draws given in advance: each round moves
     * every ship to its draw, then asks boardIsValid; the first accepted
     * round ends it.  `valid` is false when the rounds run out first.
     */
    method Randomize(rounds: seq<seq<(int, int, bool)>>) returns (valid: bool)
      requires Valid() && forall k :: 0 <= k < |rounds| ==> |rounds[k]| == |ships|
      modifies cells, ships
      ensures Valid()
      ensures Validated(valid, Value()) == BoardModel.Randomize(old(Value()), rounds)
    {
      valid := false;
      var k := 0;
      while k < |rounds| && !valid
        invariant 0 <= k <= |rounds| && Valid()
        invariant !valid ==> BoardModel.Randomize(old(Value()), rounds) == BoardModel.Randomize(Value(), rounds[k..])
        invariant valid ==> Validated(true, Value()) == BoardModel.Randomize(old(Value()), rounds)
        decreases |rounds| - k
      {
        PlaceRound(rounds[k]);
        valid := BoardIsValid();
        assert rounds[k..][1..] == rounds[k + 1..];
        k := k + 1;
      }
    }

    /** The inner loop of randomize: ship `j` moves to draw `j` of the round. */
    method PlaceRound(round: seq<(int, int, bool)>)
      requires Valid() && |round| == |ships|
      modifies ships
      ensures Valid()
      ensures Value() == PlaceAll(old(Value()), round)
    {
      ghost var before := Value();
      ghost var placed := PlaceAll(before, round);
      for shipIndex := 0 to |ships|
        invariant Grid() == before.grid
        invariant forall j :: 0 <= j < |ships| ==>
          ShipV(ships[j].Shape(), ships[j].hits) == if j < shipIndex then placed.fleet[j] else before.fleet[j]
      {
        ships[shipIndex].UpdatePosition(round[shipIndex].0, round[shipIndex].1, round[shipIndex].2);
      }
      assert Value() == placed;
      PlaceAllConsistent(before, round);
    }

    /**
     * bombCell: a shot at a cell already hit does nothing and reports
     * nothing; otherwise the cell is marked hit, the owning ship (if any)
     * gains a hit, and the event with its response is returned for the
     * game to act on.
     */
    method BombCell(p: Pos) returns (shot: Option<ShotResult>)
      requires Valid() && InRange(p)
      modifies cells, ships
      ensures Valid()
      ensures Fired(Value(), shot) == Bomb(old(Value()), p)
    {
      ghost var before := Value();
      var cell := cells[p.row, p.column];
      assert cell == At(before.grid, p);
      if cell.hasHit {
        return None;
      }
      cells[p.row, p.column] := cell.(hasHit := true);
      ghost var grid := SetAt(before.grid, p, cell.(hasHit := true));
      GridEq(Grid(), grid);
      if cell.shipIndex >= 0 {
        var ship := ships[cell.shipIndex];
        ship.hits := ship.hits + 1;
        ghost var k := cell.shipIndex;
        ghost var fleet := before.fleet[k := before.fleet[k].(hits := before.fleet[k].hits + 1)];
        assert Fleet() == fleet;
        if ship.IsSunk() {
          var info := Some(ship.Shape());
          if AllShipsSunk() {
            shot := Some(ShotResult(AllSunk, BombResponse(p, true, info, true)));
          } else {
            shot := Some(ShotResult(ShipSunk, BombResponse(p, true, info, false)));
          }
        } else {
          shot := Some(ShotResult(Hit, BombResponse(p, true, None, false)));
        }
        assert Bomb(before, p) == Fired(BoardV(grid, fleet), shot);
        assert Value() == BoardV(grid, fleet);
      } else {
        shot := Some(ShotResult(PlayerMissed, BombResponse(p, false, None, false)));
        assert Bomb(before, p) == Fired(before.(grid := grid), shot);
        assert Value() == before.(grid := grid);
      }
      BombConsistent(before, p);
    }
  }

  /** The view of the opponent's board: only the ships the opponent has revealed. */
  class EnemyBoard {
    var ships: seq<Ship>
    var playerTurn: bool

    ghost function Fleet(): (r: seq<ShipV>)
      reads this, ships
      ensures |r| == |ships|
    {
      seq(|ships|, i requires 0 <= i < |ships| reads this, ships => ShipV(ships[i].Shape(), ships[i].hits))
    }

    constructor ()
      ensures ships == [] && !playerTurn
    {
      ships := [];
      playerTurn := false;
    }

    /**
     * updateBoard with a bombResponse: looking up a cell outside the grid
     * throws before anything changes (`raised`); otherwise the sunk ship the
     * response carries, if any, is added as a new Ship object.
     */
    method UpdateBoard(cellPos: Pos, ship: Option<Placement>) returns (raised: bool)
      modifies this
      ensures Revealed(raised, Fleet()) == Reveal(old(Fleet()), cellPos, ship)
      ensures playerTurn == old(playerTurn)
      ensures ships == old(ships) ||
              (|ships| == |old(ships)| + 1 && ships[..|old(ships)|] == old(ships) && fresh(ships[|old(ships)|]))
    {
      if !InRange(cellPos) {
        return true;
      }
      raised := false;
      if ship.Some? {
        var s := new Ship(ship.value.size);
        s.UpdatePosition(ship.value.row, ship.value.column, ship.value.isVertical);
        ships := ships + [s];
        assert Fleet() == old(Fleet()) + [ShipV(ship.value, 0)];
      }
    }
  }
}
