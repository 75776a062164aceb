/** Stable descending sort by a lexicographic key, the behaviour of Python's
    `list.sort(key=..., reverse=True)`: higher keys first, and items whose
    keys are equal keep their original relative order. */
module Ranking {

  /** A sort key compared lexicographically: `primary` first, then `secondary`. */
  datatype Rank = Rank(primary: real, secondary: real)

  /** `a` sorts strictly before `b` in a descending sort. */
  predicate Outranks(a: Rank, b: Rank) {
    a.primary > b.primary || (a.primary == b.primary && a.secondary > b.secondary)
  }

  /** No item is outranked by an item that comes before it. */
  predicate SortedByRank<T>(s: seq<T>, key: T -> Rank) {
    forall i, j :: 0 <= i < j < |s| ==> !Outranks(key(s[j]), key(s[i]))
  }

  /** The items of `s` whose key is exactly `k`, in their order in `s`. */
  function WithRank<T>(s: seq<T>, key: T -> Rank, k: Rank): seq<T> {
    if |s| == 0 then [] else (if key(s[0]) == k then [s[0]] else []) + WithRank(s[1..], key, k)
  }

  /** Places `x` before the first item it is not outranked by, so that `x`
      precedes every item of equal key already in `s`. */
  function Insert<T>(x: T, s: seq<T>, key: T -> Rank): seq<T> {
    if |s| == 0 then [x]
    else if Outranks(key(s[0]), key(x)) then [s[0]] + Insert(x, s[1..], key)
    else [x] + s
  }

  lemma {:induction false} InsertPermutes<T>(x: T, s: seq<T>, key: T -> Rank)
    ensures multiset(Insert(x, s, key)) == multiset(s) + multiset{x}
  {
    if |s| > 0 && Outranks(key(s[0]), key(x)) {
      InsertPermutes(x, s[1..], key);
      assert s == [s[0]] + s[1..];
    }
  }

  /** Not being outranked is transitive: ranks form a total preorder. */
  lemma NotOutrankedTransitive(a: Rank, b: Rank, c: Rank)
    requires !Outranks(a, b) && !Outranks(b, c)
    ensures !Outranks(a, c)
  {
  }

  lemma {:induction false} InsertKeepsSorted<T>(x: T, s: seq<T>, key: T -> Rank)
    requires SortedByRank(s, key)
    ensures SortedByRank(Insert(x, s, key), key)
  {
    if |s| == 0 {
    } else if Outranks(key(s[0]), key(x)) {
      var rest := Insert(x, s[1..], key);
      InsertKeepsSorted(x, s[1..], key);
      InsertPermutes(x, s[1..], key);
      var r := [s[0]] + rest;
      forall i, j | 0 <= i < j < |r|
        ensures !Outranks(key(r[j]), key(r[i]))
      {
        if i == 0 {
          var y := rest[j - 1];
          assert y in multiset(rest);
          if y != x {
            assert y in multiset(s[1..]);
            var m :| 0 <= m < |s[1..]| && s[1..][m] == y;
            assert s[m + 1] == y;
          }
        } else {
          assert r[i] == rest[i - 1] && r[j] == rest[j - 1];
        }
      }
    } else {
      var r := [x] + s;
      forall i, j | 0 <= i < j < |r|
        ensures !Outranks(key(r[j]), key(r[i]))
      {
        if i == 0 {
          if 1 < j {
            NotOutrankedTransitive(key(s[j - 1]), key(s[0]), key(x));
          }
        } else {
          assert r[i] == s[i - 1] && r[j] == s[j - 1];
        }
      }
    }
  }

  lemma {:induction false} InsertKeepsTies<T>(x: T, s: seq<T>, key: T -> Rank, k: Rank)
    ensures WithRank(Insert(x, s, key), key, k)
         == (if key(x) == k then [x] else []) + WithRank(s, key, k)
  {
    if |s| > 0 {
      if Outranks(key(s[0]), key(x)) {
        InsertKeepsTies(x, s[1..], key, k);
        assert ([s[0]] + Insert(x, s[1..], key))[1..] == Insert(x, s[1..], key);
      } else {
        assert ([x] + s)[1..] == s;
      }
    }
  }

  /** Insertion sort, descending by key and stable.  The three clauses pin
      the result down completely: it is a rearrangement of `s`, in key
      order, and within each key the original order survives. */
  function SortByRank<T>(s: seq<T>, key: T -> Rank): (r: seq<T>)
    ensures multiset(r) == multiset(s)
    ensures SortedByRank(r, key)
    ensures forall k :: WithRank(r, key, k) == WithRank(s, key, k)
  {
    if |s| == 0 then []
    else
      var rest := SortByRank(s[1..], key);
      InsertPermutes(s[0], rest, key);
      InsertKeepsSorted(s[0], rest, key);
      assert s == [s[0]] + s[1..];
      assert forall k :: WithRank(Insert(s[0], rest, key), key, k) == WithRank(s, key, k) by {
        forall k
          ensures WithRank(Insert(s[0], rest, key), key, k) == WithRank(s, key, k)
        {
          InsertKeepsTies(s[0], rest, key, k);
        }
      }
      Insert(s[0], rest, key)
  }
}
