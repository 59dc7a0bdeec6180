/**
 * The `$sort: {field: -1}` and `$limit: k` stages of an aggregation, over an
 * abstract sort key.  MongoDB leaves the order of equal keys unspecified; the
 * model sorts stably (insertion from the back), and every property proved
 * about rankings holds whatever order equal keys end up in.
 */
module Ranking {
  import opened Seqs

  /** Keys are non-increasing along `s`. */
  predicate SortedDesc<T>(s: seq<T>, key: T -> real) {
    forall i, j :: 0 <= i < j < |s| ==> key(s[i]) >= key(s[j])
  }

  /** Places `x` after every element of `s` (sorted) whose key is at least `key(x)`. */
  function Insert<T>(s: seq<T>, x: T, key: T -> real): (r: seq<T>)
    ensures multiset(r) == multiset(s) + multiset{x}
  {
    if s == [] then [x]
    else if key(s[|s| - 1]) >= key(x) then s + [x]
    else
      assert s == s[..|s| - 1] + [s[|s| - 1]];
      Insert(s[..|s| - 1], x, key) + [s[|s| - 1]]
  }

  lemma {:induction false} InsertSorted<T>(s: seq<T>, x: T, key: T -> real)
    requires SortedDesc(s, key)
    ensures SortedDesc(Insert(s, x, key), key)
  {
    if s != [] && key(s[|s| - 1]) < key(x) {
      var init, last := s[..|s| - 1], s[|s| - 1];
      InsertSorted(init, x, key);
      var r' := Insert(init, x, key);
      assert s == init + [last];
      forall i | 0 <= i < |r'| ensures key(r'[i]) >= key(last) {
        assert r'[i] in multiset(r');
        assert r'[i] in multiset(init) || r'[i] == x;
      }
      assert Insert(s, x, key) == r' + [last];
    }
  }

  /** The stage `$sort` with a descending key: a sorted permutation of `s`. */
  function SortDesc<T>(s: seq<T>, key: T -> real): (r: seq<T>)
    ensures SortedDesc(r, key)
    ensures multiset(r) == multiset(s)
    ensures |r| == |s|
  {
    if s == [] then []
    else
      var init := s[..|s| - 1];
      assert s == init + [s[|s| - 1]];
      var r := Insert(SortDesc(init, key), s[|s| - 1], key);
      InsertSorted(SortDesc(init, key), s[|s| - 1], key);
      assert |r| == |multiset(r)|;
      r
  }

  /** `$sort` descending followed by `$limit: k`. */
  function Top<T>(s: seq<T>, key: T -> real, k: nat): (r: seq<T>)
  {
    Take(SortDesc(s, key), k)
  }

  /** In a sorted sequence every element before position `m` ranks at least as high as every element from `m` on. */
  lemma SortedSplit<T>(sorted: seq<T>, key: T -> real, m: nat)
    requires SortedDesc(sorted, key) && m <= |sorted|
    ensures forall x, y :: x in sorted[..m] && y in multiset(sorted[m..]) ==> key(x) >= key(y)
  {
    forall x, y | x in sorted[..m] && y in multiset(sorted[m..])
      ensures key(x) >= key(y)
    {
      var i :| 0 <= i < m && sorted[..m][i] == x;
      var j :| 0 <= j < |sorted| - m && sorted[m..][j] == y;
      assert sorted[i] == x && sorted[m + j] == y;
    }
  }

  /** A top-k result is sorted: it is a prefix of a sorted sequence. */
  lemma TopSorted<T>(s: seq<T>, key: T -> real, k: nat)
    ensures SortedDesc(Top(s, key, k), key)
  {
    var sorted := SortDesc(s, key);
    var r := Top(s, key, k);
    forall i, j | 0 <= i < j < |r| ensures key(r[i]) >= key(r[j]) {
      assert r[i] == sorted[i] && r[j] == sorted[j];
    }
  }

  /** The input splits into the kept prefix and the rest of the sorted sequence. */
  lemma TopSplit<T>(s: seq<T>, key: T -> real, k: nat)
    ensures var sorted := SortDesc(s, key);
            var r := Top(s, key, k);
            |r| <= |sorted| && r == sorted[..|r|] &&
            multiset(s) == multiset(r) + multiset(sorted[|r|..])
  {
    var sorted := SortDesc(s, key);
    var r := Top(s, key, k);
    assert sorted == r + sorted[|r|..];
  }

  /**
   * What a top-k query promises: the right length, sorted, drawn from the
   * input, and nothing left out ranks above anything kept.
   */
  lemma TopIsTopK<T>(s: seq<T>, key: T -> real, k: nat)
    ensures |Top(s, key, k)| == if |s| < k then |s| else k
    ensures SortedDesc(Top(s, key, k), key)
    ensures multiset(Top(s, key, k)) <= multiset(s)
    ensures forall x, y :: x in Top(s, key, k) && y in multiset(s) - multiset(Top(s, key, k)) ==>
                             key(x) >= key(y)
  {
    var sorted := SortDesc(s, key);
    var r := Top(s, key, k);
    TopSorted(s, key, k);
    TopSplit(s, key, k);
    assert multiset(s) - multiset(r) == multiset(sorted[|r|..]);
    SortedSplit(sorted, key, |r|);
  }
}
