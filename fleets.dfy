/**
 * Fleet placement validation (Board.boardIsValid): the flattened list of
 * covered cells must hold no cell twice and no cell off the board.
 */
module Fleets {
  import opened Wrappers
  import opened Cells
  import opened Ships

  /** All covered cells, ship after ship, as the concatenation loop collects them. */
  function AllCells(f: seq<Placement>): seq<Pos> {
    if |f| == 0 then [] else AllCells(f[..|f| - 1]) + Covered(f[|f| - 1])
  }

  predicate HasDuplicate<T(==)>(s: seq<T>) {
    exists i, j :: 0 <= i < j < |s| && s[i] == s[j]
  }

  predicate OutOfRange(s: seq<Pos>) {
    exists k :: 0 <= k < |s| && !InRange(s[k])
  }

  /** The verdict of boardIsValid. */
  predicate FleetIsValid(f: seq<Placement>) {
    !HasDuplicate(AllCells(f)) && !OutOfRange(AllCells(f))
  }

  predicate Overlap(a: Placement, b: Placement) {
    exists p :: p in Covered(a) && p in Covered(b)
  }

  predicate PairwiseDisjoint(f: seq<Placement>) {
    forall i, j :: 0 <= i < j < |f| ==> !Overlap(f[i], f[j])
  }

  predicate AllOnBoard(f: seq<Placement>) {
    forall i :: 0 <= i < |f| ==> OnBoard(f[i])
  }

  // ---------------------------------------------------------------------

  lemma {:induction false} InAllCells(f: seq<Placement>, p: Pos)
    ensures p in AllCells(f) <==> exists i :: 0 <= i < |f| && p in Covered(f[i])
  {
    if |f| > 0 {
      var g := f[..|f| - 1];
      InAllCells(g, p);
      if p in AllCells(g) {
        var i :| 0 <= i < |g| && p in Covered(g[i]);
        assert f[i] == g[i];
      }
      if exists i :: 0 <= i < |f| && p in Covered(f[i]) {
        var i :| 0 <= i < |f| && p in Covered(f[i]);
        if i < |g| {
          assert g[i] == f[i];
        }
      }
    }
  }

  lemma HasDuplicateConcat<T>(a: seq<T>, b: seq<T>)
    ensures HasDuplicate(a + b) <==>
      HasDuplicate(a) || HasDuplicate(b) || exists x :: x in a && x in b
  {
    var s := a + b;
    if HasDuplicate(s) {
      var i, j :| 0 <= i < j < |s| && s[i] == s[j];
      if j < |a| {
        assert a[i] == a[j];
      } else if i >= |a| {
        assert b[i - |a|] == b[j - |a|];
      } else {
        assert s[i] in a && s[j] in b;
      }
    }
    if HasDuplicate(a) {
      var i, j :| 0 <= i < j < |a| && a[i] == a[j];
      assert s[i] == s[j];
    }
    if HasDuplicate(b) {
      var i, j :| 0 <= i < j < |b| && b[i] == b[j];
      assert s[|a| + i] == s[|a| + j];
    }
    if exists x :: x in a && x in b {
      var x :| x in a && x in b;
      var i :| 0 <= i < |a| && a[i] == x;
      var j :| 0 <= j < |b| && b[j] == x;
      assert s[i] == s[|a| + j];
    }
  }

  lemma NoDuplicateInShip(pl: Placement)
    ensures !HasDuplicate(Covered(pl))
  {
    CoveredDistinct(pl);
  }

  /** Adding a ship keeps the fleet pairwise disjoint exactly when it overlaps none of the earlier ships. */
  lemma DisjointSnoc(g: seq<Placement>, x: Placement)
    ensures PairwiseDisjoint(g + [x]) <==>
      PairwiseDisjoint(g) && forall i :: 0 <= i < |g| ==> !Overlap(g[i], x)
  {
    var f := g + [x];
    if PairwiseDisjoint(f) {
      forall i, j | 0 <= i < j < |g| ensures !Overlap(g[i], g[j]) {
        assert g[i] == f[i] && g[j] == f[j];
      }
      forall i | 0 <= i < |g| ensures !Overlap(g[i], x) {
        assert g[i] == f[i] && x == f[|g|];
      }
    }
  }

  lemma AllOnBoardSnoc(g: seq<Placement>, x: Placement)
    ensures AllOnBoard(g + [x]) <==> AllOnBoard(g) && OnBoard(x)
  {
    var f := g + [x];
    if AllOnBoard(f) {
      forall i | 0 <= i < |g| ensures OnBoard(g[i]) {
        assert g[i] == f[i];
      }
      assert f[|g|] == x;
    }
  }

  lemma OutOfRangeConcat(a: seq<Pos>, b: seq<Pos>)
    ensures OutOfRange(a + b) <==> OutOfRange(a) || OutOfRange(b)
  {
    var s := a + b;
    if OutOfRange(s) {
      var k :| 0 <= k < |s| && !InRange(s[k]);
      if k >= |a| {
        assert s[k] == b[k - |a|];
      }
    }
    if OutOfRange(a) {
      var k :| 0 <= k < |a| && !InRange(a[k]);
      assert s[k] == a[k];
    }
    if OutOfRange(b) {
      var k :| 0 <= k < |b| && !InRange(b[k]);
      assert s[|a| + k] == b[k];
    }
  }

  lemma OutOfRangeShip(pl: Placement)
    ensures OutOfRange(Covered(pl)) <==> !OnBoard(pl)
  {
  }

  /** A ship shares a cell with the earlier ships' cells exactly when it overlaps one of them. */
  lemma CrossIffOverlap(g: seq<Placement>, x: Placement)
    ensures (exists p :: p in AllCells(g) && p in Covered(x)) <==>
      exists i :: 0 <= i < |g| && Overlap(g[i], x)
  {
    if exists p :: p in AllCells(g) && p in Covered(x) {
      var p :| p in AllCells(g) && p in Covered(x);
      InAllCells(g, p);
      var i :| 0 <= i < |g| && p in Covered(g[i]);
      assert Overlap(g[i], x);
    }
    if exists i :: 0 <= i < |g| && Overlap(g[i], x) {
      var i :| 0 <= i < |g| && Overlap(g[i], x);
      var p :| p in Covered(g[i]) && p in Covered(x);
      InAllCells(g, p);
    }
  }

  /**
   * boardIsValid's verdict: valid exactly when no two ships share a cell and
   * every ship lies on the board (a ship never covers a cell twice).
   */
  lemma {:induction false} FleetIsValidIff(f: seq<Placement>)
    ensures FleetIsValid(f) <==> PairwiseDisjoint(f) && AllOnBoard(f)
  {
    if |f| > 0 {
      var g, x := f[..|f| - 1], f[|f| - 1];
      assert f == g + [x];
      FleetIsValidIff(g);
      HasDuplicateConcat(AllCells(g), Covered(x));
      NoDuplicateInShip(x);
      CrossIffOverlap(g, x);
      DisjointSnoc(g, x);
      OutOfRangeConcat(AllCells(g), Covered(x));
      OutOfRangeShip(x);
      AllOnBoardSnoc(g, x);
    }
  }
}
