/**
 * Ship geometry: where a ship lies, which cells it covers, and the
 * `Ship` object whose position the player edits in place.
 */
module Ships {
  import opened Cells

  /** A ship's position, orientation and length; also the `ship` payload of a bombResponse message. */
  datatype Placement = Placement(row: int, column: int, isVertical: bool, size: int)

  /** Number of cells a ship of the given size covers (the covering loop never runs for size <= 0). */
  function Length(size: int): nat {
    if size > 0 then size else 0
  }

  /** The cell `i` steps from the origin along the ship's long axis. */
  function Offset(pl: Placement, i: int): Pos {
    if pl.isVertical then Pos(pl.row + i, pl.column) else Pos(pl.row, pl.column + i)
  }

  /**
   * The cells of an `n`-cell run starting at (row, column), built the way the
   * covering loop builds them: record the current cell, then step one row
   * down (vertical) or one column right (horizontal).
   */
  function CoveredFrom(row: int, column: int, isVertical: bool, n: int): (r: seq<Pos>)
    ensures |r| == Length(n)
    decreases n
  {
    if n <= 0 then []
    else if isVertical then [Pos(row, column)] + CoveredFrom(row + 1, column, isVertical, n - 1)
    else [Pos(row, column)] + CoveredFrom(row, column + 1, isVertical, n - 1)
  }

  /** The cells a ship occupies, in order from its origin. */
  function Covered(pl: Placement): (r: seq<Pos>)
    ensures |r| == Length(pl.size)
  {
    CoveredFrom(pl.row, pl.column, pl.isVertical, pl.size)
  }

  /** Every covered cell lies on the 10 x 10 board. */
  predicate OnBoard(pl: Placement) {
    forall p :: p in Covered(pl) ==> InRange(p)
  }

  /**
   * flipShip on values: toggle the orientation, then pull the origin back on
   * the new long axis so that the ship ends at row (or column) 9 at the latest.
   */
  function Flip(pl: Placement): (r: Placement)
    ensures r.size == pl.size && r.isVertical == !pl.isVertical
  {
    var vertical := !pl.isVertical;
    if vertical then
      pl.(isVertical := vertical, row := if pl.row + pl.size > 10 then 10 - pl.size else pl.row)
    else
      pl.(isVertical := vertical, column := if pl.column + pl.size > 10 then 10 - pl.size else pl.column)
  }

  // ---------------------------------------------------------------------
  // Shape of the covered cells

  lemma {:induction false} CoveredFromShape(row: int, column: int, isVertical: bool, n: int)
    ensures |CoveredFrom(row, column, isVertical, n)| == Length(n)
    ensures forall i :: 0 <= i < Length(n) ==>
      CoveredFrom(row, column, isVertical, n)[i] == Offset(Placement(row, column, isVertical, n), i)
    decreases n
  {
    if n > 0 {
      if isVertical {
        CoveredFromShape(row + 1, column, isVertical, n - 1);
      } else {
        CoveredFromShape(row, column + 1, isVertical, n - 1);
      }
    }
  }

  /** getCellsCovered yields exactly `size` cells, the i-th being i steps from the origin along the long axis. */
  lemma CoveredShape(pl: Placement)
    ensures |Covered(pl)| == Length(pl.size)
    ensures forall i :: 0 <= i < Length(pl.size) ==> Covered(pl)[i] == Offset(pl, i)
  {
    CoveredFromShape(pl.row, pl.column, pl.isVertical, pl.size);
  }

  /** A ship never covers the same cell twice. */
  lemma CoveredDistinct(pl: Placement)
    ensures forall i, j :: 0 <= i < j < |Covered(pl)| ==> Covered(pl)[i] != Covered(pl)[j]
  {
    CoveredShape(pl);
  }

  /** A cell is covered exactly when it lies on the ship's line within `size` steps of the origin. */
  lemma CoveredMembership(pl: Placement, p: Pos)
    ensures p in Covered(pl) <==>
      if pl.isVertical then p.column == pl.column && pl.row <= p.row < pl.row + pl.size
      else p.row == pl.row && pl.column <= p.column < pl.column + pl.size
  {
    CoveredShape(pl);
    if p in Covered(pl) {
      var i :| 0 <= i < |Covered(pl)| && Covered(pl)[i] == p;
      assert p == Offset(pl, i);
    }
    var steps := if pl.isVertical then p.row - pl.row else p.column - pl.column;
    if 0 <= steps < pl.size && p == Offset(pl, steps) {
      assert Covered(pl)[steps] == p;
    }
  }

  /** A non-empty ship is on the board exactly when its origin is and its far end does not pass row/column 9. */
  lemma OnBoardIff(pl: Placement)
    requires pl.size > 0
    ensures OnBoard(pl) <==>
      InRange(Pos(pl.row, pl.column)) &&
      (if pl.isVertical then pl.row + pl.size <= 10 else pl.column + pl.size <= 10)
  {
    CoveredShape(pl);
    if OnBoard(pl) {
      assert InRange(Covered(pl)[0]);
      assert InRange(Covered(pl)[pl.size - 1]);
    } else {
      var p :| p in Covered(pl) && !InRange(p);
      CoveredMembership(pl, p);
    }
  }

  // ---------------------------------------------------------------------
  // Flipping

  /**
   * flipShip toggles the orientation and keeps the size and the short-axis
   * coordinate; the new long-axis origin stays put when the ship fits, and
   * otherwise moves back so that the far end lands on row (or column) 9.
   */
  lemma FlipSpec(pl: Placement)
    ensures var f := Flip(pl);
      && f.isVertical == !pl.isVertical && f.size == pl.size
      && (f.isVertical ==>
            && f.column == pl.column
            && (pl.row + pl.size <= 10 ==> f.row == pl.row)
            && (pl.row + pl.size > 10 ==> f.row + f.size == 10))
      && (!f.isVertical ==>
            && f.row == pl.row
            && (pl.column + pl.size <= 10 ==> f.column == pl.column)
            && (pl.column + pl.size > 10 ==> f.column + f.size == 10))
  {
  }

  /**
   * A ship whose origin is on the board and whose size is at most 10 is
   * entirely on the board after a flip, whatever it was before.
   */
  lemma FlipStaysOnBoard(pl: Placement)
    requires InRange(Pos(pl.row, pl.column)) && 0 < pl.size <= 10
    ensures OnBoard(Flip(pl))
  {
    OnBoardIff(Flip(pl));
  }

  /**
   * Flipping twice gives back an on-board ship exactly when it also fits
   * along the other axis; otherwise the first flip's clamp moved it.
   */
  lemma FlipTwice(pl: Placement)
    requires pl.size > 0 && OnBoard(pl)
    ensures Flip(Flip(pl)) == pl <==> OnBoard(pl.(isVertical := !pl.isVertical))
  {
    OnBoardIff(pl);
    OnBoardIff(pl.(isVertical := !pl.isVertical));
  }

  // ---------------------------------------------------------------------
  // The Ship object

  class Ship {
    const size: int
    var row: int
    var column: int
    var isVertical: bool
    var hits: int

    function Shape(): Placement
      reads this
    {
      Placement(row, column, isVertical, size)
    }

    predicate IsSunk()
      reads this
      ensures IsSunk() <==> hits == Shape().size
    {
      hits == size
    }

    /** A new ship of the given size, at (0, 0), vertical, undamaged. */
    constructor (size: int)
      ensures Shape() == Placement(0, 0, true, size) && hits == 0
    {
      this.size := size;
      row, column, isVertical, hits := 0, 0, true, 0;
    }

    method UpdatePosition(row: int, column: int, vertical: bool)
      modifies this
      ensures Shape() == Placement(row, column, vertical, size) && hits == old(hits)
    {
      this.row, this.column, this.isVertical := row, column, vertical;
    }

    method FlipShip()
      modifies this
      ensures Shape() == Flip(old(Shape())) && hits == old(hits)
    {
      isVertical := !isVertical;
      if isVertical {
        if row + size > 10 {
          row := 10 - size;
        }
      } else {
        if column + size > 10 {
          column := 10 - size;
        }
      }
    }

    /** The covered cells, stepping the current cell along the long axis. */
    method GetCellsCovered() returns (cells: seq<Pos>)
      ensures cells == Covered(Shape())
    {
      cells := [];
      var r, c := row, column;
      var i := 0;
      while i < size
        invariant 0 <= i <= Length(size)
        invariant |cells| == i
        invariant Pos(r, c) == Offset(Shape(), i)
        invariant forall k :: 0 <= k < i ==> cells[k] == Offset(Shape(), k)
      {
        cells := cells + [Pos(r, c)];
        if isVertical {
          r := r + 1;
        } else {
          c := c + 1;
        }
        i := i + 1;
      }
      CoveredShape(Shape());
    }
  }
}
