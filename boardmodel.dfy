/**
 * The owner's board as a value: the 10 x 10 grid of cells and the fleet,
 * with placement commit (boardIsValid + updateCellData) and shot
 * resolution (bombCell) as functions, and the invariant that keeps every
 * ship's damage counter equal to the number of its cells that were hit.
 */
module BoardModel {
  import opened Wrappers
  import opened Cells
  import opened Ships
  import opened Fleets
  import opened Messages

  /** A ship's placement together with its damage counter. */
  datatype ShipV = ShipV(place: Placement, hits: int) {
    predicate Sunk() {
      hits == place.size
    }
  }

  datatype BoardV = BoardV(grid: seq<seq<Cell>>, fleet: seq<ShipV>)

  /** The events MyBoard.bombCell reports to the session. */
  datatype BoardEvent = PlayerMissed | Hit | ShipSunk | AllSunk

  /** The event together with its bombResponse payload. */
  datatype ShotResult = ShotResult(event: BoardEvent, response: Msg)

  datatype Fired = Fired(board: BoardV, shot: Option<ShotResult>)

  datatype Validated = Validated(valid: bool, board: BoardV)

  predicate IsGrid(g: seq<seq<Cell>>) {
    |g| == 10 && forall r :: 0 <= r < 10 ==> |g[r]| == 10
  }

  function At(g: seq<seq<Cell>>, p: Pos): Cell
    requires IsGrid(g) && InRange(p)
  {
    g[p.row][p.column]
  }

  function SetAt(g: seq<seq<Cell>>, p: Pos, cell: Cell): (r: seq<seq<Cell>>)
    requires IsGrid(g) && InRange(p)
    ensures IsGrid(r)
  {
    g[p.row := g[p.row][p.column := cell]]
  }

  function EmptyGrid(): (g: seq<seq<Cell>>)
    ensures IsGrid(g)
  {
    seq(10, r => seq(10, c => Untouched))
  }

  /** A fresh board: every cell untouched, ship `i` of size `sizes[i]` at row `i`, column 0, horizontal, undamaged. */
  function InitialBoard(sizes: seq<int>): (b: BoardV)
    ensures IsGrid(b.grid) && |b.fleet| == |sizes|
  {
    BoardV(EmptyGrid(), seq(|sizes|, i requires 0 <= i < |sizes| => ShipV(Placement(i, 0, false, sizes[i]), 0)))
  }

  function Places(fleet: seq<ShipV>): (r: seq<Placement>)
    ensures |r| == |fleet| && forall i :: 0 <= i < |fleet| ==> r[i] == fleet[i].place
  {
    seq(|fleet|, i requires 0 <= i < |fleet| => fleet[i].place)
  }

  /** allShipsSunk: every ship of the fleet is sunk (vacuously so for an empty fleet). */
  predicate AllShipsSunk(fleet: seq<ShipV>) {
    forall i :: 0 <= i < |fleet| ==> fleet[i].Sunk()
  }

  /** Every cell's shipIndex is -1 or names a ship of the fleet. */
  predicate StampsInRange(b: BoardV) {
    IsGrid(b.grid) &&
    forall r, c :: 0 <= r < 10 && 0 <= c < 10 ==> -1 <= b.grid[r][c].shipIndex < |b.fleet|
  }

  // ---------------------------------------------------------------------
  // updateCellData

  /**
   * The index a cell holds after the first `k` ships have stamped their
   * cells in order (a later ship overwrites an earlier one), -1 if none.
   */
  function Stamp(f: seq<Placement>, k: nat, p: Pos): int
    requires k <= |f|
  {
    if k == 0 then -1
    else if p in Covered(f[k - 1]) then k - 1
    else Stamp(f, k - 1, p)
  }

  /** The grid updateCellData leaves: no cell fired upon, each stamped by the fleet. */
  function StampGrid(f: seq<Placement>): (g: seq<seq<Cell>>)
    ensures IsGrid(g)
  {
    seq(10, r => seq(10, c => Cell(false, Stamp(f, |f|, Pos(r, c)))))
  }

  function ResetHits(fleet: seq<ShipV>): (r: seq<ShipV>)
    ensures |r| == |fleet|
  {
    seq(|fleet|, i requires 0 <= i < |fleet| => fleet[i].(hits := 0))
  }

  /** boardIsValid: on a valid fleet, also the updateCellData side effect; otherwise nothing changes. */
  function Validate(b: BoardV): (v: Validated)
    ensures |v.board.fleet| == |b.fleet| && Places(v.board.fleet) == Places(b.fleet)
    ensures v.valid ==> FleetIsValid(Places(v.board.fleet))
    ensures !v.valid ==> v.board == b
  {
    var places := Places(b.fleet);
    if FleetIsValid(places) then Validated(true, BoardV(StampGrid(places), ResetHits(b.fleet)))
    else Validated(false, b)
  }

  // ---------------------------------------------------------------------
  // bombCell

  function Bomb(b: BoardV, p: Pos): (f: Fired)
    requires StampsInRange(b) && InRange(p)
    ensures StampsInRange(f.board) && |f.board.fleet| == |b.fleet| && At(f.board.grid, p).hasHit
    ensures f.shot.None? <==> At(b.grid, p).hasHit
  {
    var cell := At(b.grid, p);
    if cell.hasHit then Fired(b, None)
    else
      var grid := SetAt(b.grid, p, cell.(hasHit := true));
      if cell.shipIndex < 0 then
        Fired(b.(grid := grid), Some(ShotResult(PlayerMissed, BombResponse(p, false, None, false))))
      else
        var k := cell.shipIndex;
        var ship := b.fleet[k].(hits := b.fleet[k].hits + 1);
        var fleet := b.fleet[k := ship];
        var shot :=
          if !ship.Sunk() then ShotResult(Hit, BombResponse(p, true, None, false))
          else if AllShipsSunk(fleet) then ShotResult(AllSunk, BombResponse(p, true, Some(ship.place), true))
          else ShotResult(ShipSunk, BombResponse(p, true, Some(ship.place), false));
        Fired(BoardV(grid, fleet), Some(shot))
  }

  // ---------------------------------------------------------------------
  // The damage invariant

  /** The cells stamped with ship `i`. */
  function StampSet(g: seq<seq<Cell>>, i: int): set<Pos>
    requires IsGrid(g)
  {
    set r, c | 0 <= r < 10 && 0 <= c < 10 && g[r][c].shipIndex == i :: Pos(r, c)
  }

  /** The cells stamped with ship `i` that have been fired upon. */
  function HitSet(g: seq<seq<Cell>>, i: int): set<Pos>
    requires IsGrid(g)
  {
    set r, c | 0 <= r < 10 && 0 <= c < 10 && g[r][c].shipIndex == i && g[r][c].hasHit :: Pos(r, c)
  }

  /**
   * Every ship's hit counter counts the fired-upon cells stamped with its
   * index, and no more cells carry its index than the ship has.
   */
  predicate Consistent(b: BoardV) {
    StampsInRange(b) &&
    forall i :: 0 <= i < |b.fleet| ==>
      b.fleet[i].hits == |HitSet(b.grid, i)| && |StampSet(b.grid, i)| <= b.fleet[i].place.size
  }

  /**
   * The grid records the placement: the fleet passed boardIsValid and every
   * cell carries the stamp updateCellData gave it for the current placements.
   */
  predicate Committed(b: BoardV) {
    IsGrid(b.grid) && FleetIsValid(Places(b.fleet)) &&
    forall r, c :: 0 <= r < 10 && 0 <= c < 10 ==> b.grid[r][c].shipIndex == Stamp(Places(b.fleet), |b.fleet|, Pos(r, c))
  }

  // ---------------------------------------------------------------------
  // Stamping

  lemma {:induction false} StampRange(f: seq<Placement>, k: nat, p: Pos)
    requires k <= |f|
    ensures Stamp(f, k, p) == -1 || (0 <= Stamp(f, k, p) < k && p in Covered(f[Stamp(f, k, p)]))
  {
    if k > 0 && p !in Covered(f[k - 1]) {
      StampRange(f, k - 1, p);
    }
  }

  lemma {:induction false} StampOwner(f: seq<Placement>, k: nat, p: Pos)
    requires k <= |f| && PairwiseDisjoint(f)
    ensures forall i :: 0 <= i < k ==> (Stamp(f, k, p) == i <==> p in Covered(f[i]))
  {
    if k > 0 {
      StampOwner(f, k - 1, p);
      StampRange(f, k - 1, p);
      if p in Covered(f[k - 1]) {
        forall i | 0 <= i < k - 1 ensures p !in Covered(f[i]) {
          assert !Overlap(f[i], f[k - 1]);
        }
      }
    }
  }

  /**
   * On a fleet of pairwise disjoint ships, the stamp of a cell is `i` exactly
   * when ship `i` covers it, and -1 exactly when no ship does.
   */
  lemma StampCorrect(f: seq<Placement>, p: Pos)
    requires PairwiseDisjoint(f)
    ensures forall i :: 0 <= i < |f| ==> (Stamp(f, |f|, p) == i <==> p in Covered(f[i]))
    ensures Stamp(f, |f|, p) == -1 <==> forall i :: 0 <= i < |f| ==> p !in Covered(f[i])
  {
    StampOwner(f, |f|, p);
    StampRange(f, |f|, p);
  }

  function Elements(s: seq<Pos>): set<Pos> {
    set x | x in s
  }

  lemma {:induction false} ElementsOfDistinct(s: seq<Pos>)
    requires !HasDuplicate(s)
    ensures |Elements(s)| == |s|
  {
    if |s| > 0 {
      var r := s[..|s| - 1];
      var x := s[|s| - 1];
      assert !HasDuplicate(r);
      ElementsOfDistinct(r);
      assert Elements(s) == Elements(r) + {x} by {
        assert s == r + [x];
      }
      assert x !in Elements(r);
    }
  }

  /** After a successful commit, the cells stamped with ship `i` are exactly the cells ship `i` covers. */
  lemma StampSetOfValid(f: seq<Placement>, i: int)
    requires FleetIsValid(f) && 0 <= i < |f|
    ensures StampSet(StampGrid(f), i) == Elements(Covered(f[i]))
    ensures |StampSet(StampGrid(f), i)| == Length(f[i].size)
  {
    FleetIsValidIff(f);
    var g := StampGrid(f);
    forall x | x in Elements(Covered(f[i])) ensures x in StampSet(g, i) {
      assert OnBoard(f[i]);
      StampCorrect(f, x);
      assert g[x.row][x.column].shipIndex == i;
    }
    forall x | x in StampSet(g, i) ensures x in Elements(Covered(f[i])) {
      StampCorrect(f, x);
    }
    NoDuplicateInShip(f[i]);
    ElementsOfDistinct(Covered(f[i]));
    CoveredShape(f[i]);
  }

  // ---------------------------------------------------------------------
  // boardIsValid

  /**
   * boardIsValid succeeds exactly when no two ships share a cell and every
   * ship lies on the board.  On success no cell is fired upon, every hit
   * counter is 0, placements are kept, and a cell holds ship index `i` exactly
   * when ship `i` covers it and -1 exactly when no ship does.  On failure
   * the board is unchanged.
   */
  lemma ValidateSpec(b: BoardV)
    ensures var v := Validate(b);
      && (v.valid <==> PairwiseDisjoint(Places(b.fleet)) && AllOnBoard(Places(b.fleet)))
      && (!v.valid ==> v.board == b)
      && (v.valid ==>
            && IsGrid(v.board.grid)
            && |v.board.fleet| == |b.fleet|
            && (forall i :: 0 <= i < |b.fleet| ==> v.board.fleet[i] == ShipV(b.fleet[i].place, 0))
            && (forall r, c :: 0 <= r < 10 && 0 <= c < 10 ==> !v.board.grid[r][c].hasHit)
            && (forall r, c, i :: 0 <= r < 10 && 0 <= c < 10 && 0 <= i < |b.fleet| ==>
                  (v.board.grid[r][c].shipIndex == i <==> Pos(r, c) in Covered(b.fleet[i].place)))
            && (forall r, c :: 0 <= r < 10 && 0 <= c < 10 ==>
                  (v.board.grid[r][c].shipIndex == -1 <==>
                     forall i :: 0 <= i < |b.fleet| ==> Pos(r, c) !in Covered(b.fleet[i].place))))
  {
    var places := Places(b.fleet);
    FleetIsValidIff(places);
    if FleetIsValid(places) {
      forall r, c | 0 <= r < 10 && 0 <= c < 10 {
        StampCorrect(places, Pos(r, c));
      }
    }
  }

  lemma ConsistentSizes(b: BoardV)
    requires Consistent(b)
    ensures forall i :: 0 <= i < |b.fleet| ==> b.fleet[i].place.size >= 0
  {
    forall i | 0 <= i < |b.fleet| ensures b.fleet[i].place.size >= 0 {
      assert |StampSet(b.grid, i)| >= 0;
    }
  }

  /**
   * What updateCellData leaves behind (every cell stamped in fleet order and
   * not hit, every counter at 0) is the committed board, and it keeps the
   * damage invariant.
   */
  lemma CommitSpec(b: BoardV, g: seq<seq<Cell>>, f: seq<ShipV>)
    requires Consistent(b) && FleetIsValid(Places(b.fleet)) && IsGrid(g)
    requires forall r, c :: 0 <= r < 10 && 0 <= c < 10 ==> g[r][c] == Cell(false, Stamp(Places(b.fleet), |b.fleet|, Pos(r, c)))
    requires |f| == |b.fleet| && forall j :: 0 <= j < |f| ==> f[j] == b.fleet[j].(hits := 0)
    ensures BoardV(g, f) == Validate(b).board && Consistent(BoardV(g, f))
  {
    GridEq(g, StampGrid(Places(b.fleet)));
    ConsistentSizes(b);
    ValidateConsistent(b);
  }

  lemma EmptyGridConsistent(fleet: seq<ShipV>)
    requires forall i :: 0 <= i < |fleet| ==> fleet[i].hits == 0 && fleet[i].place.size >= 0
    ensures Consistent(BoardV(EmptyGrid(), fleet))
  {
    var g := EmptyGrid();
    forall i | 0 <= i < |fleet| ensures HitSet(g, i) == {} && StampSet(g, i) == {} {
      assert forall x :: x !in StampSet(g, i);
    }
  }

  /** A commit keeps the damage invariant (it only needs the ship sizes to be non-negative). */
  lemma ValidateConsistent(b: BoardV)
    requires forall i :: 0 <= i < |b.fleet| ==> b.fleet[i].place.size >= 0
    requires Consistent(b) || Validate(b).valid
    ensures Consistent(Validate(b).board)
  {
    var v := Validate(b);
    if v.valid {
      var places := Places(b.fleet);
      var g: seq<seq<Cell>> := v.board.grid;
      forall r, c | 0 <= r < 10 && 0 <= c < 10 ensures -1 <= g[r][c].shipIndex < |b.fleet| {
        StampRange(places, |places|, Pos(r, c));
      }
      forall i | 0 <= i < |b.fleet|
        ensures v.board.fleet[i].hits == |HitSet(g, i)| && |StampSet(g, i)| <= v.board.fleet[i].place.size
      {
        StampSetOfValid(places, i);
        assert HitSet(g, i) == {} by {
          if x :| x in HitSet(g, i) {
            assert g[x.row][x.column].hasHit;
          }
        }
      }
    }
  }

  // ---------------------------------------------------------------------
  // Marking a cell

  lemma MarkHit(g: seq<seq<Cell>>, p: Pos)
    requires IsGrid(g) && InRange(p) && !At(g, p).hasHit
    ensures var g' := SetAt(g, p, At(g, p).(hasHit := true));
      && (forall i :: StampSet(g', i) == StampSet(g, i))
      && (forall i :: i != At(g, p).shipIndex ==> HitSet(g', i) == HitSet(g, i))
      && HitSet(g', At(g, p).shipIndex) == HitSet(g, At(g, p).shipIndex) + {p}
      && p !in HitSet(g, At(g, p).shipIndex)
  {
    var g' := SetAt(g, p, At(g, p).(hasHit := true));
    var k := At(g, p).shipIndex;
    forall i ensures StampSet(g', i) == StampSet(g, i) {
      forall x ensures x in StampSet(g', i) <==> x in StampSet(g, i) {
        if 0 <= x.row < 10 && 0 <= x.column < 10 {
          assert g'[x.row][x.column].shipIndex == g[x.row][x.column].shipIndex;
        }
      }
    }
    forall i ensures HitSet(g', i) == if i == k then HitSet(g, i) + {p} else HitSet(g, i) {
      forall x ensures x in HitSet(g', i) <==> x in (if i == k then HitSet(g, i) + {p} else HitSet(g, i)) {
        if 0 <= x.row < 10 && 0 <= x.column < 10 && x != p {
          assert g'[x.row][x.column] == g[x.row][x.column];
        }
      }
    }
  }

  lemma CardSubset(a: set<Pos>, b: set<Pos>)
    requires a <= b
    ensures |a| <= |b|
  {
    assert b == a + (b - a);
  }

  /** In a consistent board no ship has more hits than cells: 0 <= hits <= size. */
  lemma HitsBounded(b: BoardV)
    requires Consistent(b)
    ensures forall i :: 0 <= i < |b.fleet| ==> 0 <= b.fleet[i].hits <= b.fleet[i].place.size
  {
    forall i | 0 <= i < |b.fleet| ensures b.fleet[i].hits <= b.fleet[i].place.size {
      CardSubset(HitSet(b.grid, i), StampSet(b.grid, i));
    }
  }

  /** bombCell keeps the damage invariant. */
  lemma BombConsistent(b: BoardV, p: Pos)
    requires Consistent(b) && InRange(p)
    ensures Consistent(Bomb(b, p).board)
  {
    var cell := At(b.grid, p);
    if !cell.hasHit {
      MarkHit(b.grid, p);
      if cell.shipIndex >= 0 {
        var k := cell.shipIndex;
        CardSubset(HitSet(b.grid, k) + {p}, StampSet(b.grid, k));
      }
    }
  }

  // ---------------------------------------------------------------------
  // What a shot does

  /**
   * bombCell on a cell already hit changes nothing and reports nothing.  On a
   * fresh cell it marks that cell hit and nothing else on the grid; a cell
   * with no ship reports a miss; otherwise exactly the owning ship gains one
   * hit, the response carries the ship exactly when it is now sunk, and the
   * event is hit while the ship still floats, shipSunk when it is sunk and
   * another ship floats, and allSunk exactly when every ship is now sunk.
   */
  lemma BombSpec(b: BoardV, p: Pos)
    requires StampsInRange(b) && InRange(p)
    ensures var f := Bomb(b, p); var cell := At(b.grid, p);
      && (cell.hasHit ==> f == Fired(b, None))
      && (!cell.hasHit ==>
            && f.board.grid == SetAt(b.grid, p, cell.(hasHit := true))
            && f.shot.Some?
            && f.shot.value.response.BombResponse?
            && f.shot.value.response.cellPos == p
            && (f.shot.value.response.hit <==> cell.shipIndex >= 0)
            && (cell.shipIndex < 0 ==>
                  f.board.fleet == b.fleet && f.shot.value == ShotResult(PlayerMissed, BombResponse(p, false, None, false)))
            && (cell.shipIndex >= 0 ==>
                  var k := cell.shipIndex;
                  && f.board.fleet == b.fleet[k := b.fleet[k].(hits := b.fleet[k].hits + 1)]
                  && (f.shot.value.response.ship.Some? <==> f.board.fleet[k].Sunk())
                  && (f.shot.value.response.ship.Some? ==> f.shot.value.response.ship.value == b.fleet[k].place)
                  && (f.shot.value.event == Hit <==> !f.board.fleet[k].Sunk())
                  && (f.shot.value.event == ShipSunk <==> f.board.fleet[k].Sunk() && !AllShipsSunk(f.board.fleet))
                  && f.shot.value.event != PlayerMissed
                  && (f.shot.value.event == AllSunk <==> AllShipsSunk(f.board.fleet))
                  && (f.shot.value.response.allSunk <==> f.shot.value.event == AllSunk)))
  {
  }

  /** Firing twice at the same cell has the effect of firing once, and the second shot reports nothing. */
  lemma BombIdempotent(b: BoardV, p: Pos)
    requires StampsInRange(b) && InRange(p)
    ensures StampsInRange(Bomb(b, p).board)
    ensures Bomb(Bomb(b, p).board, p) == Fired(Bomb(b, p).board, None)
  {
  }

  /** A successful commit leaves a committed board, and a committed board passes boardIsValid again. */
  lemma ValidateCommits(b: BoardV)
    ensures Validate(b).valid ==> Committed(Validate(b).board)
    ensures Committed(b) ==> Validate(b).valid
  {
  }

  /** bombCell moves no ship and restamps no cell, so a committed board stays committed. */
  lemma BombKeepsCommitted(b: BoardV, p: Pos)
    requires Committed(b) && StampsInRange(b) && InRange(p)
    ensures Committed(Bomb(b, p).board)
  {
    var f := Bomb(b, p).board;
    assert Places(f.fleet) == Places(b.fleet);
    assert forall r, c :: 0 <= r < 10 && 0 <= c < 10 ==> f.grid[r][c].shipIndex == b.grid[r][c].shipIndex;
  }

  /** On a committed board a cell records a ship exactly when some ship covers it, and records ship i exactly when ship i does. */
  lemma CommittedShipAt(b: BoardV, p: Pos)
    requires Committed(b) && InRange(p)
    ensures forall i :: 0 <= i < |b.fleet| ==> (At(b.grid, p).shipIndex == i <==> p in Covered(b.fleet[i].place))
    ensures At(b.grid, p).shipIndex >= 0 <==> exists i :: 0 <= i < |b.fleet| && p in Covered(b.fleet[i].place)
  {
    FleetIsValidIff(Places(b.fleet));
    StampCorrect(Places(b.fleet), p);
    StampRange(Places(b.fleet), |b.fleet|, p);
  }

  lemma GridEq(g1: seq<seq<Cell>>, g2: seq<seq<Cell>>)
    requires IsGrid(g1) && IsGrid(g2)
    requires forall r, c :: 0 <= r < 10 && 0 <= c < 10 ==> g1[r][c] == g2[r][c]
    ensures g1 == g2
  {
    forall r | 0 <= r < 10 ensures g1[r] == g2[r] {
      assert forall c :: 0 <= c < 10 ==> g1[r][c] == g2[r][c];
    }
  }

  // ---------------------------------------------------------------------
  // Moving ships

  /** Ship `i` put at a new placement (a drop or a flip); nothing else changes. */
  function Move(b: BoardV, i: int, pl: Placement): (r: BoardV)
    requires 0 <= i < |b.fleet|
    ensures r.grid == b.grid && |r.fleet| == |b.fleet|
    ensures r.fleet[i] == ShipV(pl, b.fleet[i].hits)
    ensures forall j :: 0 <= j < |b.fleet| && j != i ==> r.fleet[j] == b.fleet[j]
  {
    b.(fleet := b.fleet[i := b.fleet[i].(place := pl)])
  }

  /** The damage invariant depends on the ship sizes and counters only, not on where the ships are. */
  lemma MoveConsistent(b: BoardV, i: int, pl: Placement)
    requires Consistent(b) && 0 <= i < |b.fleet| && pl.size == b.fleet[i].place.size
    ensures Consistent(Move(b, i, pl))
  {
  }

  // ---------------------------------------------------------------------
  // randomize

  /** One round of randomize: ship j is moved to draw j, keeping its size and counter. */
  function PlaceAll(b: BoardV, round: seq<(int, int, bool)>): (r: BoardV)
    requires |round| == |b.fleet|
    ensures r.grid == b.grid && |r.fleet| == |b.fleet|
  {
    b.(fleet := seq(|b.fleet|, j requires 0 <= j < |b.fleet| =>
      b.fleet[j].(place := Placement(round[j].0, round[j].1, round[j].2, b.fleet[j].place.size))))
  }

  /**
   * randomize with its random draws given in advance, one round per element:
   * reposition every ship, then commit; stop at the first round boardIsValid
   * accepts.  `valid` is false when the draws run out first.
   */
  function Randomize(b: BoardV, rounds: seq<seq<(int, int, bool)>>): (v: Validated)
    requires forall k :: 0 <= k < |rounds| ==> |rounds[k]| == |b.fleet|
    ensures |v.board.fleet| == |b.fleet|
    ensures v.valid ==> FleetIsValid(Places(v.board.fleet))
    decreases |rounds|
  {
    if |rounds| == 0 then Validated(false, b)
    else
      var v := Validate(PlaceAll(b, rounds[0]));
      if v.valid then v else Randomize(v.board, rounds[1..])
  }

  lemma PlaceAllConsistent(b: BoardV, round: seq<(int, int, bool)>)
    requires Consistent(b) && |round| == |b.fleet|
    ensures Consistent(PlaceAll(b, round))
  {
  }

  /** A new round replaces the previous one entirely. */
  lemma PlaceAllTwice(b: BoardV, r1: seq<(int, int, bool)>, r2: seq<(int, int, bool)>)
    requires |r1| == |b.fleet| && |r2| == |b.fleet|
    ensures PlaceAll(PlaceAll(b, r1), r2) == PlaceAll(b, r2)
  {
  }

  predicate RoundValid(b: BoardV, round: seq<(int, int, bool)>)
    requires |round| == |b.fleet|
  {
    FleetIsValid(Places(PlaceAll(b, round).fleet))
  }

  /** A rejected round leaves randomize to go on from the repositioned board with the remaining rounds. */
  lemma RandomizeStep(b: BoardV, rounds: seq<seq<(int, int, bool)>>)
    requires forall k :: 0 <= k < |rounds| ==> |rounds[k]| == |b.fleet|
    requires |rounds| > 0 && !RoundValid(b, rounds[0])
    ensures Randomize(b, rounds) == Randomize(PlaceAll(b, rounds[0]), rounds[1..])
    ensures forall k :: 1 <= k < |rounds| ==> PlaceAll(PlaceAll(b, rounds[0]), rounds[k]) == PlaceAll(b, rounds[k])
  {
    forall k | 1 <= k < |rounds| ensures PlaceAll(PlaceAll(b, rounds[0]), rounds[k]) == PlaceAll(b, rounds[k]) {
      PlaceAllTwice(b, rounds[0], rounds[k]);
    }
  }

  /** randomize succeeds exactly when some round of draws gives a valid placement. */
  lemma {:induction false} RandomizeValidIff(b: BoardV, rounds: seq<seq<(int, int, bool)>>)
    requires forall k :: 0 <= k < |rounds| ==> |rounds[k]| == |b.fleet|
    ensures Randomize(b, rounds).valid <==> exists k :: 0 <= k < |rounds| && RoundValid(b, rounds[k])
    decreases |rounds|
  {
    if |rounds| > 0 && !RoundValid(b, rounds[0]) {
      var b1, rest := PlaceAll(b, rounds[0]), rounds[1..];
      RandomizeStep(b, rounds);
      RandomizeValidIff(b1, rest);
      forall k | 0 <= k < |rest| ensures RoundValid(b1, rest[k]) == RoundValid(b, rounds[k + 1]) {
        assert rest[k] == rounds[k + 1];
      }
      if exists k :: 0 <= k < |rounds| && RoundValid(b, rounds[k]) {
        var k :| 0 <= k < |rounds| && RoundValid(b, rounds[k]);
        assert rest[k - 1] == rounds[k];
      }
    }
  }

  /**
   * When randomize succeeds, it committed the first valid round: every
   * earlier round was rejected.
   */
  lemma {:induction false} RandomizeFirstValid(b: BoardV, rounds: seq<seq<(int, int, bool)>>)
    requires forall k :: 0 <= k < |rounds| ==> |rounds[k]| == |b.fleet|
    requires Randomize(b, rounds).valid
    ensures exists k :: 0 <= k < |rounds| && Randomize(b, rounds) == Validate(PlaceAll(b, rounds[k])) &&
                        forall j :: 0 <= j < k ==> !RoundValid(b, rounds[j])
    decreases |rounds|
  {
    if !RoundValid(b, rounds[0]) {
      var b1, rest := PlaceAll(b, rounds[0]), rounds[1..];
      RandomizeStep(b, rounds);
      RandomizeFirstValid(b1, rest);
      var k :| 0 <= k < |rest| && Randomize(b1, rest) == Validate(PlaceAll(b1, rest[k])) &&
               forall j :: 0 <= j < k ==> !RoundValid(b1, rest[j]);
      assert rest[k] == rounds[k + 1];
      forall j | 1 <= j < k + 1 ensures !RoundValid(b, rounds[j]) {
        assert rest[j - 1] == rounds[j];
      }
      assert Randomize(b, rounds) == Validate(PlaceAll(b, rounds[k + 1]));
    } else {
      assert Randomize(b, rounds) == Validate(PlaceAll(b, rounds[0]));
    }
  }

  /** When randomize fails, no cell and no damage counter has changed. */
  lemma {:induction false} RandomizeFailKeeps(b: BoardV, rounds: seq<seq<(int, int, bool)>>)
    requires forall k :: 0 <= k < |rounds| ==> |rounds[k]| == |b.fleet|
    requires !Randomize(b, rounds).valid
    ensures Randomize(b, rounds).board.grid == b.grid
    ensures |Randomize(b, rounds).board.fleet| == |b.fleet|
    ensures forall i :: 0 <= i < |b.fleet| ==> Randomize(b, rounds).board.fleet[i].hits == b.fleet[i].hits
    decreases |rounds|
  {
    if |rounds| > 0 {
      RandomizeFailKeeps(PlaceAll(b, rounds[0]), rounds[1..]);
    }
  }

  // ---------------------------------------------------------------------
  // EnemyBoard.updateBoard

  datatype Revealed = Revealed(raised: bool, fleet: seq<ShipV>)

  /**
   * updateBoard on the opponent view: looking up a cell outside the grid
   * throws (the lookup yields undefined) before anything changes; otherwise a
   * revealed ship is appended, undamaged.  Hit and miss marks are display only.
   */
  function Reveal(fleet: seq<ShipV>, cellPos: Pos, ship: Option<Placement>): (r: Revealed)
    ensures r.raised <==> !InRange(cellPos)
    ensures |r.fleet| == |fleet| + (if !r.raised && ship.Some? then 1 else 0) && r.fleet[..|fleet|] == fleet
  {
    if !InRange(cellPos) then Revealed(true, fleet)
    else if ship.Some? then Revealed(false, fleet + [ShipV(ship.value, 0)])
    else Revealed(false, fleet)
  }
}

