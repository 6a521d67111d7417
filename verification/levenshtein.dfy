/** Edit distance (insertions, deletions and substitutions of one character
    each cost 1), as `levenshteinDistance` in utils/fuzzyMatch.ts computes it
    with a full matrix. `Cell` is the recurrence the matrix fills in;
    `Compute` is the matrix algorithm, proved to agree with it. */
module Levenshtein {

  function Min3(x: nat, y: nat, z: nat): (m: nat)
    ensures m <= x && m <= y && m <= z
    ensures m == x || m == y || m == z
  {
    if x <= y && x <= z then x else if y <= z then y else z
  }

  function Max(x: nat, y: nat): nat {
    if x >= y then x else y
  }

  /** `matrix[i][j]`, the distance between the first `i` characters of `a`
      and the first `j` characters of `b`: row 0 and column 0 count
      characters, every other cell is the cheapest of a deletion, an
      insertion and a (possibly free) substitution. */
  function Cell(a: string, b: string, i: nat, j: nat): (d: nat)
    requires i <= |a| && j <= |b|
    decreases i + j
  {
    if i == 0 then j
    else if j == 0 then i
    else
      Min3(Cell(a, b, i - 1, j) + 1,
           Cell(a, b, i, j - 1) + 1,
           Cell(a, b, i - 1, j - 1) + (if a[i - 1] == b[j - 1] then 0 else 1))
  }

  /** A cell depends on the first `i` characters of `a` and the first `j`
      of `b` only. */
  lemma {:induction false} CellPrefixes(a: string, b: string, a': string, b': string, i: nat, j: nat)
    requires i <= |a| && i <= |a'| && j <= |b| && j <= |b'|
    requires a[..i] == a'[..i] && b[..j] == b'[..j]
    decreases i + j
    ensures Cell(a, b, i, j) == Cell(a', b', i, j)
  {
    if i > 0 && j > 0 {
      assert a[..i - 1] == a[..i][..i - 1] && a'[..i - 1] == a'[..i][..i - 1];
      assert b[..j - 1] == b[..j][..j - 1] && b'[..j - 1] == b'[..j][..j - 1];
      assert a[i - 1] == a[..i][i - 1] && a'[i - 1] == a'[..i][i - 1];
      assert b[j - 1] == b[..j][j - 1] && b'[j - 1] == b'[..j][j - 1];
      CellPrefixes(a, b, a', b', i - 1, j);
      CellPrefixes(a, b, a', b', i, j - 1);
      CellPrefixes(a, b, a', b', i - 1, j - 1);
    }
  }

  /** Every cell of the matrix is the edit distance between the two
      prefixes it stands for. */
  lemma CellIsPrefixDistance(a: string, b: string, i: nat, j: nat)
    requires i <= |a| && j <= |b|
    ensures Cell(a, b, i, j) == Distance(a[..i], b[..j])
  {
    var a', b' := a[..i], b[..j];
    assert a'[..i] == a[..i] && b'[..j] == b[..j];
    CellPrefixes(a, b, a', b', i, j);
  }

  /** Every cell lies between the difference and the larger of the two
      prefix lengths. */
  lemma {:induction false} CellBounds(a: string, b: string, i: nat, j: nat)
    requires i <= |a| && j <= |b|
    decreases i + j
    ensures Cell(a, b, i, j) <= Max(i, j)
    ensures i - j <= Cell(a, b, i, j) && j - i <= Cell(a, b, i, j)
  {
    if i > 0 && j > 0 {
      CellBounds(a, b, i - 1, j);
      CellBounds(a, b, i, j - 1);
      CellBounds(a, b, i - 1, j - 1);
    }
  }

  /** `levenshteinDistance(a, b)`: the bottom-right cell, never more than the
      longer length and never less than the length difference. */
  function Distance(a: string, b: string): (d: nat)
    ensures d <= Max(|a|, |b|)
    ensures |a| - |b| <= d && |b| - |a| <= d
  {
    CellBounds(a, b, |a|, |b|);
    Cell(a, b, |a|, |b|)
  }

  /** Deleting every character: the distance to the empty string is the
      length. */
  lemma ToEmpty(a: string)
    ensures Distance(a, "") == |a| && Distance("", a) == |a|
  {
  }

  lemma Min3Swap(x: nat, y: nat, z: nat)
    ensures Min3(x, y, z) == Min3(y, x, z)
  {
  }

  lemma {:induction false} CellSymmetric(a: string, b: string, i: nat, j: nat)
    requires i <= |a| && j <= |b|
    decreases i + j
    ensures Cell(a, b, i, j) == Cell(b, a, j, i)
  {
    if i > 0 && j > 0 {
      CellSymmetric(a, b, i - 1, j);
      CellSymmetric(a, b, i, j - 1);
      CellSymmetric(a, b, i - 1, j - 1);
      Min3Swap(Cell(a, b, i - 1, j) + 1, Cell(a, b, i, j - 1) + 1,
        Cell(a, b, i - 1, j - 1) + (if a[i - 1] == b[j - 1] then 0 else 1));
    }
  }

  /** The distance is symmetric. */
  lemma Symmetric(a: string, b: string)
    ensures Distance(a, b) == Distance(b, a)
  {
    CellSymmetric(a, b, |a|, |b|);
  }

  lemma {:induction false} CellDiagonalZero(a: string, i: nat)
    requires i <= |a|
    ensures Cell(a, a, i, i) == 0
  {
    if i > 0 {
      CellDiagonalZero(a, i - 1);
    }
  }

  lemma {:induction false} CellZeroOnlyIfEqual(a: string, b: string, i: nat, j: nat)
    requires i <= |a| && j <= |b|
    requires Cell(a, b, i, j) == 0
    decreases i + j
    ensures i == j && a[..i] == b[..j]
  {
    if i > 0 && j > 0 {
      CellZeroOnlyIfEqual(a, b, i - 1, j - 1);
      assert a[..i] == a[..i - 1] + [a[i - 1]];
      assert b[..j] == b[..j - 1] + [b[j - 1]];
    }
  }

  /** Distance is zero exactly between equal strings. */
  lemma ZeroIff(a: string, b: string)
    ensures Distance(a, b) == 0 <==> a == b
  {
    if a == b {
      CellDiagonalZero(a, |a|);
    } else if Distance(a, b) == 0 {
      CellZeroOnlyIfEqual(a, b, |a|, |b|);
    }
  }

  /** Row `i` of the matrix computed from row `i - 1`. */
  method NextRow(a: string, b: string, i: nat, prev: seq<nat>) returns (row: seq<nat>)
    requires 1 <= i <= |a|
    requires |prev| == |b| + 1
    requires forall j {:trigger prev[j]} :: 0 <= j <= |b| ==> prev[j] == Cell(a, b, i - 1, j)
    ensures |row| == |b| + 1
    ensures forall j {:trigger row[j]} :: 0 <= j <= |b| ==> row[j] == Cell(a, b, i, j)
  {
    row := [i];
    var j := 1;
    while j <= |b|
      invariant 1 <= j <= |b| + 1
      invariant |row| == j
      invariant forall k {:trigger row[k]} :: 0 <= k < j ==> row[k] == Cell(a, b, i, k)
    {
      var cost := if a[i - 1] == b[j - 1] then 0 else 1;
      var v := Min3(prev[j] + 1, row[j - 1] + 1, prev[j - 1] + cost);
      assert v == Cell(a, b, i, j);
      row := row + [v];
      j := j + 1;
    }
  }

  /** The matrix algorithm, one row at a time; the result is the matrix's
      bottom-right cell. */
  method Compute(a: string, b: string) returns (d: nat)
    ensures d == Distance(a, b)
  {
    var prev: seq<nat> := seq(|b| + 1, j requires 0 <= j <= |b| => j);
    var i := 1;
    while i <= |a|
      invariant 1 <= i <= |a| + 1
      invariant |prev| == |b| + 1
      invariant forall j {:trigger prev[j]} :: 0 <= j <= |b| ==> prev[j] == Cell(a, b, i - 1, j)
    {
      prev := NextRow(a, b, i, prev);
      i := i + 1;
    }
    d := prev[|b|];
  }
}
