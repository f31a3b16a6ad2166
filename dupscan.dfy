/**
 * Why boardIsValid may be modelled on coordinate pairs: the game renders
 * every covered cell as its "row,column" string, sorts the strings and looks
 * for two equal neighbours, then parses each string back to test its range.
 * On any sorted permutation of the rendered cells both tests give the same
 * answers as the pair-level checks of the Fleets module.
 */
module DuplicateScan {
  import opened Wrappers
  import opened Cells
  import opened Fleets

  /** Array.prototype.sort's default order on these strings: lexicographic by character code, a prefix first. */
  predicate StringLe(a: string, b: string)
    decreases |a|
  {
    |a| == 0 || (|b| > 0 && (a[0] < b[0] || (a[0] == b[0] && StringLe(a[1..], b[1..]))))
  }

  predicate Sorted(s: seq<string>) {
    forall i, j :: 0 <= i < j < |s| ==> StringLe(s[i], s[j])
  }

  /** The `some` scan: an entry equal to the one after it (the last entry is compared with undefined). */
  predicate AdjacentEqual<T(==)>(s: seq<T>) {
    exists k :: 0 <= k < |s| - 1 && s[k] == s[k + 1]
  }

  /** The second `some` scan: an entry whose parsed row or column is not in [0, 9] (NaN fails every comparison). */
  predicate ParsedOutOfRange(s: seq<string>) {
    exists k :: 0 <= k < |s| && !(ParseCellLocation(s[k]).Some? && InRange(ParseCellLocation(s[k]).value))
  }

  /** The covered cells as getCellsCovered returns them: location strings. */
  function Encode(ps: seq<Pos>): (r: seq<string>)
    ensures |r| == |ps|
  {
    seq(|ps|, i requires 0 <= i < |ps| => CellLocation(ps[i]))
  }

  // ---------------------------------------------------------------------

  lemma {:induction false} StringLeAntisymmetric(a: string, b: string)
    requires StringLe(a, b) && StringLe(b, a)
    ensures a == b
    decreases |a|
  {
    if |a| > 0 {
      StringLeAntisymmetric(a[1..], b[1..]);
      assert a == [a[0]] + a[1..] && b == [b[0]] + b[1..];
    }
  }

  /** In a sorted list, equal entries are always found next to each other. */
  lemma SortedScan(s: seq<string>)
    requires Sorted(s)
    ensures AdjacentEqual(s) <==> HasDuplicate(s)
  {
    if HasDuplicate(s) {
      var i, j :| 0 <= i < j < |s| && s[i] == s[j];
      if i + 1 < j {
        StringLeAntisymmetric(s[i], s[i + 1]);
      }
      assert s[i] == s[i + 1];
    }
    if AdjacentEqual(s) {
      var k :| 0 <= k < |s| - 1 && s[k] == s[k + 1];
      assert 0 <= k < k + 1 < |s|;
    }
  }

  lemma {:induction false} NoDuplicateCount<T>(s: seq<T>, x: T)
    requires !HasDuplicate(s)
    ensures multiset(s)[x] <= 1
  {
    if |s| > 0 {
      var r := s[1..];
      assert s == [s[0]] + r;
      assert !HasDuplicate(r);
      NoDuplicateCount(r, x);
      assert s[0] == x ==> x !in r;
    }
  }

  lemma DuplicateCount<T>(s: seq<T>, i: int, j: int)
    requires 0 <= i < j < |s| && s[i] == s[j]
    ensures multiset(s)[s[i]] >= 2
  {
    var x := s[i];
    assert s == s[..j] + [s[j]] + s[j + 1..];
    assert s[..j][i] == x;
    assert multiset(s[..j])[x] >= 1;
  }

  /** Reordering a list neither creates nor removes duplicates. */
  lemma PermutationKeepsDuplicate<T>(s: seq<T>, t: seq<T>)
    requires multiset(s) == multiset(t)
    ensures HasDuplicate(s) <==> HasDuplicate(t)
  {
    if HasDuplicate(s) && !HasDuplicate(t) {
      var i, j :| 0 <= i < j < |s| && s[i] == s[j];
      DuplicateCount(s, i, j);
      NoDuplicateCount(t, s[i]);
    }
    if HasDuplicate(t) && !HasDuplicate(s) {
      var i, j :| 0 <= i < j < |t| && t[i] == t[j];
      DuplicateCount(t, i, j);
      NoDuplicateCount(s, t[i]);
    }
  }

  /** Rendering cells as location strings neither creates nor removes duplicates. */
  lemma EncodeKeepsDuplicate(ps: seq<Pos>)
    ensures HasDuplicate(Encode(ps)) <==> HasDuplicate(ps)
  {
    var es := Encode(ps);
    if HasDuplicate(es) {
      var i, j :| 0 <= i < j < |es| && es[i] == es[j];
      CellLocationInjective(ps[i], ps[j]);
    }
    if HasDuplicate(ps) {
      var i, j :| 0 <= i < j < |ps| && ps[i] == ps[j];
      assert es[i] == es[j];
    }
  }

  lemma ParsedOutOfRangeOfPermutation(ps: seq<Pos>, t: seq<string>)
    requires multiset(t) == multiset(Encode(ps))
    ensures ParsedOutOfRange(t) <==> OutOfRange(ps)
  {
    var es := Encode(ps);
    if ParsedOutOfRange(t) {
      var k :| 0 <= k < |t| && !(ParseCellLocation(t[k]).Some? && InRange(ParseCellLocation(t[k]).value));
      assert t[k] in multiset(es);
      var i :| 0 <= i < |es| && es[i] == t[k];
      ParseCellLocationRoundTrip(ps[i]);
    }
    if OutOfRange(ps) {
      var i :| 0 <= i < |ps| && !InRange(ps[i]);
      assert es[i] in multiset(t);
      var k :| 0 <= k < |t| && t[k] == es[i];
      ParseCellLocationRoundTrip(ps[i]);
    }
  }

  /**
   * The game's two tests on the sorted location strings agree with the
   * duplicate and range tests on the cells themselves.
   */
  lemma SourceChecksAgree(ps: seq<Pos>, sorted: seq<string>)
    requires multiset(sorted) == multiset(Encode(ps)) && Sorted(sorted)
    ensures AdjacentEqual(sorted) <==> HasDuplicate(ps)
    ensures ParsedOutOfRange(sorted) <==> OutOfRange(ps)
  {
    SortedScan(sorted);
    PermutationKeepsDuplicate(sorted, Encode(ps));
    EncodeKeepsDuplicate(ps);
    ParsedOutOfRangeOfPermutation(ps, sorted);
  }
}
