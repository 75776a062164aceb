/** Word similarity from the Levenshtein edit distance: a recursive
    definition of the distance, its basic laws, the dynamic-programming
    table that computes it, and the similarity score derived from it. */
module Levenshtein {
  import opened Prelude

  function Min3(x: nat, y: nat, z: nat): (m: nat)
    ensures m <= x && m <= y && m <= z
    ensures m == x || m == y || m == z
  {
    if x <= y && x <= z then x else if y <= z then y else z
  }

  /** 0 when the `i`-th character of `a` and the `j`-th of `b` (1-based)
      agree, 1 otherwise: the cost of a substitution. */
  function SubstitutionCost(a: string, b: string, i: nat, j: nat): nat
    requires 0 < i <= |a| && 0 < j <= |b|
  {
    if a[i - 1] == b[j - 1] then 0 else 1
  }

  /** The least number of single-character deletions, insertions and
      substitutions turning `a[..i]` into `b[..j]`. */
  function EditDistance(a: string, b: string, i: nat, j: nat): nat
    requires i <= |a| && j <= |b|
    decreases i + j
  {
    if i == 0 then j
    else if j == 0 then i
    else Min3(EditDistance(a, b, i - 1, j) + 1,
              EditDistance(a, b, i, j - 1) + 1,
              EditDistance(a, b, i - 1, j - 1) + SubstitutionCost(a, b, i, j))
  }

  function Distance(a: string, b: string): nat {
    EditDistance(a, b, |a|, |b|)
  }

  /** Rewriting every character of the shorter prefix and inserting or
      deleting the rest is always enough. */
  lemma {:induction false} DistanceAtMostLonger(a: string, b: string, i: nat, j: nat)
    requires i <= |a| && j <= |b|
    ensures EditDistance(a, b, i, j) <= Max(i, j)
    decreases i + j
  {
    if i > 0 && j > 0 {
      DistanceAtMostLonger(a, b, i - 1, j - 1);
    }
  }

  /** Each edit changes the length by at most one. */
  lemma {:induction false} DistanceAtLeastLengthGap(a: string, b: string, i: nat, j: nat)
    requires i <= |a| && j <= |b|
    ensures i - j <= EditDistance(a, b, i, j) && j - i <= EditDistance(a, b, i, j)
    decreases i + j
  {
    if i > 0 && j > 0 {
      DistanceAtLeastLengthGap(a, b, i - 1, j);
      DistanceAtLeastLengthGap(a, b, i, j - 1);
      DistanceAtLeastLengthGap(a, b, i - 1, j - 1);
    }
  }

  /** The distance is zero exactly between equal prefixes. */
  lemma {:induction false} DistanceZeroIffEqual(a: string, b: string, i: nat, j: nat)
    requires i <= |a| && j <= |b|
    ensures EditDistance(a, b, i, j) == 0 <==> i == j && a[..i] == b[..j]
    decreases i + j
  {
    if i > 0 && j > 0 {
      DistanceZeroIffEqual(a, b, i - 1, j - 1);
      assert a[..i] == a[..i - 1] + [a[i - 1]];
      assert b[..j] == b[..j - 1] + [b[j - 1]];
      if i == j && a[..i] == b[..j] {
        assert a[..i - 1] == a[..i][..i - 1];
        assert b[..j - 1] == b[..j][..j - 1];
        assert a[i - 1] == a[..i][i - 1];
        assert b[j - 1] == b[..j][j - 1];
      }
    }
  }

  /** Turning `a` into `b` costs as much as turning `b` into `a`. */
  lemma {:induction false} DistanceSymmetric(a: string, b: string, i: nat, j: nat)
    requires i <= |a| && j <= |b|
    ensures EditDistance(a, b, i, j) == EditDistance(b, a, j, i)
    decreases i + j
  {
    if i > 0 && j > 0 {
      DistanceSymmetric(a, b, i - 1, j);
      DistanceSymmetric(a, b, i, j - 1);
      DistanceSymmetric(a, b, i - 1, j - 1);
    }
  }

  /** One inner cell of the table from its three neighbours. */
  lemma CellFromNeighbours(a: string, b: string, i: nat, j: nat)
    requires 0 < i <= |a| && 0 < j <= |b|
    ensures EditDistance(a, b, i, j)
         == Min3(EditDistance(a, b, i - 1, j) + 1,
                 EditDistance(a, b, i, j - 1) + 1,
                 EditDistance(a, b, i - 1, j - 1) + (if a[i - 1] == b[j - 1] then 0 else 1))
  {
  }

  /** Row `i` of the source's bottom-up table from row `i - 1`: the row
      starts with `i`, and each further cell is the cheapest of a deletion,
      an insertion and a substitution. */
  method ComputeRow(a: string, b: string, i: nat, prev: seq<nat>) returns (cur: seq<nat>)
    requires 0 < i <= |a| && |prev| == |b| + 1
    requires forall c {:trigger prev[c]} :: 0 <= c <= |b| ==> prev[c] == EditDistance(a, b, i - 1, c)
    ensures |cur| == |b| + 1
    ensures forall c {:trigger cur[c]} :: 0 <= c <= |b| ==> cur[c] == EditDistance(a, b, i, c)
  {
    cur := [i];
    var j := 1;
    while j <= |b|
      invariant 1 <= j <= |b| + 1
      invariant |cur| == j
      invariant forall c {:trigger cur[c]} :: 0 <= c < j ==> cur[c] == EditDistance(a, b, i, c)
    {
      var cost := if a[i - 1] == b[j - 1] then 0 else 1;
      var cell := Min3(prev[j] + 1, cur[j - 1] + 1, prev[j - 1] + cost);
      CellFromNeighbours(a, b, i, j);
      cur := cur + [cell];
      j := j + 1;
    }
  }

  /** The distance by the source's bottom-up table, filled row by row
      from row 0, which holds the prefix lengths of `b`.  Only the
      previous row is kept. */
  method ComputeDistance(a: string, b: string) returns (d: nat)
    ensures d == Distance(a, b)
  {
    var prev: seq<nat> := seq(|b| + 1, c => c);
    var i := 1;
    while i <= |a|
      invariant 1 <= i <= |a| + 1
      invariant |prev| == |b| + 1
      invariant forall c {:trigger prev[c]} :: 0 <= c <= |b| ==> prev[c] == EditDistance(a, b, i - 1, c)
    {
      prev := ComputeRow(a, b, i, prev);
      i := i + 1;
    }
    d := prev[|b|];
  }

  /** 1 for equal words, 0 when exactly one of them is empty, and otherwise
      one minus the distance over the longer length. */
  function Similarity(a: string, b: string): (r: real)
    ensures 0.0 <= r <= 1.0
    ensures r == 1.0 <==> a == b
    ensures a != b && (|a| == 0 || |b| == 0) ==> r == 0.0
    ensures 0 < |a| && 0 < |b| ==>
      (r == 0.0 <==> Distance(a, b) == Max(|a|, |b|))
  {
    DistanceAtMostLonger(a, b, |a|, |b|);
    DistanceZeroIffEqual(a, b, |a|, |b|);
    assert a[..|a|] == a && b[..|b|] == b;
    if a == b then 1.0
    else if |a| == 0 || |b| == 0 then 0.0
    else
      var longer := Max(|a|, |b|);
      RatioBounds(Distance(a, b), longer);
      1.0 - Distance(a, b) as real / longer as real
  }

  /** For `0 < d <= n`, the fraction `d / n` lies in (0, 1] and is 1 only
      when `d == n`. */
  lemma RatioBounds(d: nat, n: nat)
    requires 0 < d <= n
    ensures 0.0 < d as real / n as real <= 1.0
    ensures d as real / n as real == 1.0 <==> d == n
  {
    var q := d as real / n as real;
    assert q * n as real == d as real;
  }

  lemma DivMonotone(x: real, y: real, n: real)
    requires x <= y && 0.0 < n
    ensures x / n <= y / n
  {
    var qx := x / n;
    var qy := y / n;
    assert qx * n == x && qy * n == y;
    assert 0.0 <= (qy - qx) * n;
  }

  lemma SimilaritySymmetric(a: string, b: string)
    ensures Similarity(a, b) == Similarity(b, a)
  {
    DistanceSymmetric(a, b, |a|, |b|);
  }

  /** Words of different lengths are never more similar than the shorter
      length over the longer one allows. */
  lemma SimilarityAtMostLengthRatio(a: string, b: string)
    requires 0 < |a| && 0 < |b|
    ensures Similarity(a, b) <= 1.0 - (Max(|a|, |b|) - Min(|a|, |b|)) as real / Max(|a|, |b|) as real
  {
    DistanceAtLeastLengthGap(a, b, |a|, |b|);
    var n := Max(|a|, |b|) as real;
    var gap := (Max(|a|, |b|) - Min(|a|, |b|)) as real;
    if a != b {
      var d := Distance(a, b) as real;
      assert gap <= d;
      DivMonotone(gap, d, n);
    }
  }

  /** The similarity as the source computes it, with the table method
      supplying the distance. */
  method ComputeSimilarity(a: string, b: string) returns (r: real)
    ensures r == Similarity(a, b)
  {
    if a == b {
      return 1.0;
    }
    if |a| == 0 || |b| == 0 {
      return 0.0;
    }
    var d := ComputeDistance(a, b);
    r := 1.0 - d as real / Max(|a|, |b|) as real;
  }
}
