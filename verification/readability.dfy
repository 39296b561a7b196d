/**
 * The full-text extraction policy of src/lib/extractors/readability.ts:
 * `levenshteinDistance` (a dynamic-programming matrix filled in nested
 * loops), `calculateSimilarity` and `shouldExtractFullText`.  Similarities
 * are kept as a numerator over a positive denominator instead of a float.
 */
module Readability {
  import opened Wrappers
  import opened Text
  import opened Ratios

  function Min3(a: nat, b: nat, c: nat): (m: nat)
    ensures m <= a && m <= b && m <= c
    ensures m == a || m == b || m == c
  {
    if a <= b && a <= c then a else if b <= c then b else c
  }

  /**
   * `matrix[i][j]` of `levenshteinDistance(s1, s2)`: the edit distance between
   * the first `j` characters of `s1` and the first `i` characters of `s2`,
   * by the recurrence the loops follow.
   */
  function Cell(s1: string, s2: string, i: nat, j: nat): nat
    requires i <= |s2| && j <= |s1|
    decreases i + j
  {
    if i == 0 then j
    else if j == 0 then i
    else if s2[i - 1] == s1[j - 1] then Cell(s1, s2, i - 1, j - 1)
    else Min3(Cell(s1, s2, i - 1, j - 1), Cell(s1, s2, i, j - 1), Cell(s1, s2, i - 1, j)) + 1
  }

  /** The edit distance `levenshteinDistance(s1, s2)` returns: the bottom-right cell. */
  function Distance(s1: string, s2: string): nat {
    Cell(s1, s2, |s2|, |s1|)
  }

  /** Rows `0 .. rows - 1` of the matrix hold their cells. */
  ghost predicate RowsFilled(matrix: array2<nat>, s1: string, s2: string, rows: nat)
    reads matrix
    requires matrix.Length0 == |s2| + 1 && matrix.Length1 == |s1| + 1 && rows <= |s2| + 1
  {
    forall r, c {:trigger matrix[r, c]} :: 0 <= r < rows && 0 <= c <= |s1| ==> matrix[r, c] == Cell(s1, s2, r, c)
  }

  /** `levenshteinDistance`: fill the matrix row by row and return its last cell. */
  method LevenshteinDistance(s1: string, s2: string) returns (d: nat)
    ensures d == Distance(s1, s2)
  {
    var matrix := new nat[|s2| + 1, |s1| + 1];
    for i := 0 to |s2| + 1
      invariant forall r :: 0 <= r < i ==> matrix[r, 0] == r
    {
      matrix[i, 0] := i;
    }
    for j := 0 to |s1| + 1
      invariant forall r :: 0 <= r <= |s2| ==> matrix[r, 0] == r
      invariant forall c :: 0 <= c < j ==> matrix[0, c] == c
    {
      matrix[0, j] := j;
    }
    for i := 1 to |s2| + 1
      invariant RowsFilled(matrix, s1, s2, i)
      invariant forall r :: i <= r <= |s2| ==> matrix[r, 0] == r
    {
      for j := 1 to |s1| + 1
        invariant RowsFilled(matrix, s1, s2, i)
        invariant forall c {:trigger matrix[i, c]} :: 0 <= c < j ==> matrix[i, c] == Cell(s1, s2, i, c)
        invariant forall r :: i < r <= |s2| ==> matrix[r, 0] == r
      {
        if s2[i - 1] == s1[j - 1] {
          matrix[i, j] := matrix[i - 1, j - 1];
        } else {
          matrix[i, j] := Min3(matrix[i - 1, j - 1] + 1, matrix[i, j - 1] + 1, matrix[i - 1, j] + 1);
        }
      }
    }
    d := matrix[|s2|, |s1|];
  }

  /** The distance to or from the empty string is the other string's length. */
  lemma DistanceToEmpty(s: string)
    ensures Distance(s, "") == |s| && Distance("", s) == |s|
  {
  }

  lemma {:induction false} CellDiagonal(s: string, k: nat)
    requires k <= |s|
    ensures Cell(s, s, k, k) == 0
  {
    if k > 0 {
      CellDiagonal(s, k - 1);
    }
  }

  /** A string is at distance 0 from itself. */
  lemma DistanceSelf(s: string)
    ensures Distance(s, s) == 0
  {
    CellDiagonal(s, |s|);
  }

  lemma {:induction false} CellSymmetric(s1: string, s2: string, i: nat, j: nat)
    requires i <= |s2| && j <= |s1|
    ensures Cell(s1, s2, i, j) == Cell(s2, s1, j, i)
    decreases i + j
  {
    if i > 0 && j > 0 {
      CellSymmetric(s1, s2, i - 1, j - 1);
      if s2[i - 1] != s1[j - 1] {
        CellSymmetric(s1, s2, i, j - 1);
        CellSymmetric(s1, s2, i - 1, j);
        var diag, left, up := Cell(s1, s2, i - 1, j - 1), Cell(s1, s2, i, j - 1), Cell(s1, s2, i - 1, j);
        assert Cell(s2, s1, j, i) == Min3(diag, up, left) + 1;
        assert Min3(diag, left, up) == Min3(diag, up, left);
      }
    }
  }

  /** The distance does not depend on the order of its arguments. */
  lemma DistanceSymmetric(s1: string, s2: string)
    ensures Distance(s1, s2) == Distance(s2, s1)
  {
    CellSymmetric(s1, s2, |s2|, |s1|);
  }

  lemma {:induction false} CellLowerBound(s1: string, s2: string, i: nat, j: nat)
    requires i <= |s2| && j <= |s1|
    ensures i - j <= Cell(s1, s2, i, j) && j - i <= Cell(s1, s2, i, j)
    decreases i + j
  {
    if i > 0 && j > 0 {
      CellLowerBound(s1, s2, i - 1, j - 1);
      CellLowerBound(s1, s2, i, j - 1);
      CellLowerBound(s1, s2, i - 1, j);
    }
  }

  lemma {:induction false} CellUpperBound(s1: string, s2: string, i: nat, j: nat)
    requires i <= |s2| && j <= |s1|
    ensures Cell(s1, s2, i, j) <= if i < j then j else i
    decreases i + j
  {
    if i > 0 && j > 0 {
      CellUpperBound(s1, s2, i - 1, j - 1);
    }
  }

  /** The distance is at least the difference of the lengths and at most the longer length. */
  lemma DistanceBounds(s1: string, s2: string)
    ensures |s1| - |s2| <= Distance(s1, s2) && |s2| - |s1| <= Distance(s1, s2)
    ensures Distance(s1, s2) <= if |s1| < |s2| then |s2| else |s1|
  {
    CellLowerBound(s1, s2, |s2|, |s1|);
    CellUpperBound(s1, s2, |s2|, |s1|);
  }

  /** `calculateSimilarity`: 1 for two empty strings, else `(L - d) / L` with L the longer length. */
  function Similarity(str1: string, str2: string): (r: Ratio)
    ensures 0 < r.den && r.num <= r.den
    ensures |str1| == 0 && |str2| == 0 ==> r.num == r.den
  {
    var longer := if |str1| > |str2| then str1 else str2;
    var shorter := if |str1| > |str2| then str2 else str1;
    if |longer| == 0 then Ratio(1, 1)
    else
      DistanceBounds(longer, shorter);
      Ratio(|longer| - Distance(longer, shorter), |longer|)
  }

  /** The similarity does not depend on the order of its arguments. */
  lemma SimilaritySymmetric(str1: string, str2: string)
    ensures Similarity(str1, str2) == Similarity(str2, str1)
  {
    DistanceSymmetric(str1, str2);
  }

  /** `shouldExtractFullText`: true without a summary, for a short one, or for one that mostly repeats the title. */
  function ShouldExtractFullText(summary: Option<string>, title: string): (extract: bool)
    ensures !Truthy(summary) ==> extract
    ensures Truthy(summary) && |summary.value| < 200 ==> extract
    ensures Truthy(summary) && |summary.value| >= 200 ==>
              (extract <==> AboveFourFifths(Similarity(summary.value, title)))
  {
    if !Truthy(summary) then true
    else if |summary.value| < 200 then true
    else AboveFourFifths(Similarity(summary.value, title))
  }

  /**
   * A summary of at least 200 characters with a title no longer than four
   * fifths of it is never re-extracted: the distance is at least the length
   * difference, so the similarity is at most the title's share.
   */
  lemma LongSummaryShortTitle(summary: string, title: string)
    requires |summary| >= 200 && 5 * |title| <= 4 * |summary|
    ensures !ShouldExtractFullText(Some(summary), title)
  {
    DistanceBounds(summary, title);
  }

  /** 500 copies of `A` against the title `Title` give false. */
  lemma RepeatedLetterExample()
    ensures !ShouldExtractFullText(Some(seq(500, _ => 'A')), "Title")
  {
    LongSummaryShortTitle(seq(500, _ => 'A'), "Title");
  }

  /** A long summary equal to its title is re-extracted. */
  lemma SummaryIsTitle(s: string)
    requires |s| >= 200
    ensures ShouldExtractFullText(Some(s), s)
  {
    DistanceSelf(s);
  }
}
