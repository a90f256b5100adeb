/**
 * A stable sort into non-increasing key order: what sort.SliceStable does with
 * `less(i, j) = key(s[i]) > key(s[j])`, and the order SQLite's
 * `ORDER BY ... DESC` gives rows it reads in table order.
 */
module Sorting {

  predicate SortedDesc<T>(s: seq<T>, key: T -> real) {
    forall i, j :: 0 <= i < j < |s| ==> key(s[i]) >= key(s[j])
  }

  /** The elements of s whose key is v, in their order in s. */
  function WithKey<T>(s: seq<T>, key: T -> real, v: real): (r: seq<T>)
    ensures |r| <= |s|
  {
    if s == [] then []
    else if key(s[0]) == v then [s[0]] + WithKey(s[1..], key, v)
    else WithKey(s[1..], key, v)
  }

  /** Puts x in front of the first element whose key is not above key(x). */
  function Insert<T>(x: T, s: seq<T>, key: T -> real): (r: seq<T>)
    ensures |r| == |s| + 1
  {
    if s == [] || key(x) >= key(s[0]) then [x] + s
    else [s[0]] + Insert(x, s[1..], key)
  }

  function SortDesc<T>(s: seq<T>, key: T -> real): (r: seq<T>)
    ensures |r| == |s|
  {
    if s == [] then [] else Insert(s[0], SortDesc(s[1..], key), key)
  }

  /** The first n elements, or all of them when there are fewer. */
  function Take<T>(s: seq<T>, n: int): (r: seq<T>)
    ensures |r| == if n < 0 then 0 else if |s| <= n then |s| else n
    ensures forall i :: 0 <= i < |r| ==> r[i] == s[i]
  {
    if n <= 0 then [] else if |s| <= n then s else s[..n]
  }

  lemma {:induction false} InsertSorted<T>(x: T, s: seq<T>, key: T -> real)
    requires SortedDesc(s, key)
    ensures SortedDesc(Insert(x, s, key), key)
    ensures s != [] ==> Insert(x, s, key)[0] == x || Insert(x, s, key)[0] == s[0]
  {
    if s != [] && key(x) < key(s[0]) {
      InsertSorted(x, s[1..], key);
      var t := Insert(x, s[1..], key);
      var r := [s[0]] + t;
      forall i, j | 0 <= i < j < |r| ensures key(r[i]) >= key(r[j]) {
        if i == 0 {
          if t[j - 1] != x {
            InsertElements(x, s[1..], key, j - 1);
          }
        }
      }
    }
  }

  /** Every element of Insert(x, s) other than x comes from s. */
  lemma {:induction false} InsertElements<T>(x: T, s: seq<T>, key: T -> real, k: nat)
    requires SortedDesc(s, key)
    requires k < |Insert(x, s, key)|
    ensures Insert(x, s, key)[k] == x || exists m :: 0 <= m < |s| && Insert(x, s, key)[k] == s[m] && (key(s[m]) <= key(s[0]))
  {
    if s != [] && key(x) < key(s[0]) && k > 0 {
      InsertElements(x, s[1..], key, k - 1);
      if Insert(x, s[1..], key)[k - 1] != x {
        var m :| 0 <= m < |s[1..]| && Insert(x, s[1..], key)[k - 1] == s[1..][m];
        assert Insert(x, s, key)[k] == s[m + 1];
      }
    } else if s != [] && key(x) >= key(s[0]) && k > 0 {
      assert Insert(x, s, key)[k] == s[k - 1];
    } else if s != [] && k == 0 && key(x) < key(s[0]) {
      assert Insert(x, s, key)[0] == s[0];
    }
  }

  lemma {:induction false} SortDescSorted<T>(s: seq<T>, key: T -> real)
    ensures SortedDesc(SortDesc(s, key), key)
  {
    if s != [] {
      SortDescSorted(s[1..], key);
      InsertSorted(s[0], SortDesc(s[1..], key), key);
    }
  }

  lemma {:induction false} InsertPermutes<T>(x: T, s: seq<T>, key: T -> real)
    ensures multiset(Insert(x, s, key)) == multiset(s) + multiset{x}
  {
    if s != [] && key(x) < key(s[0]) {
      InsertPermutes(x, s[1..], key);
      assert s == [s[0]] + s[1..];
    }
  }

  lemma {:induction false} SortDescPermutes<T>(s: seq<T>, key: T -> real)
    ensures multiset(SortDesc(s, key)) == multiset(s)
  {
    if s != [] {
      SortDescPermutes(s[1..], key);
      InsertPermutes(s[0], SortDesc(s[1..], key), key);
      assert s == [s[0]] + s[1..];
    }
  }

  lemma {:induction false} InsertWithKey<T>(x: T, s: seq<T>, key: T -> real, v: real)
    requires SortedDesc(s, key)
    ensures WithKey(Insert(x, s, key), key, v) == if key(x) == v then [x] + WithKey(s, key, v) else WithKey(s, key, v)
  {
    if s != [] && key(x) < key(s[0]) {
      InsertWithKey(x, s[1..], key, v);
      if key(x) == v {
        // every element placed before x has a larger key, so none of them has key v
        assert key(s[0]) != v;
      }
    }
  }

  /**
   * Stability: for every key value, the elements with that key appear in the
   * sorted sequence in the same relative order as in the input.
   */
  lemma {:induction false} SortDescStable<T>(s: seq<T>, key: T -> real, v: real)
    ensures WithKey(SortDesc(s, key), key, v) == WithKey(s, key, v)
  {
    if s != [] {
      SortDescStable(s[1..], key, v);
      SortDescSorted(s[1..], key);
      InsertWithKey(s[0], SortDesc(s[1..], key), key, v);
    }
  }

  /**
   * Cutting a sorted sequence keeps its best elements: an element that is
   * left out has a key no greater than any element kept.
   */
  lemma TakeKeepsBest<T>(s: seq<T>, key: T -> real, n: int, x: T, y: T)
    requires SortedDesc(s, key)
    requires x in s && x !in Take(s, n) && y in Take(s, n)
    ensures key(x) <= key(y)
  {
    var t := Take(s, n);
    var j :| 0 <= j < |s| && s[j] == x;
    var i :| 0 <= i < |t| && t[i] == y;
    assert s[i] == y;
  }

  /** A sequence that is already in order is left as it is. */
  lemma {:induction false} SortDescOfSorted<T>(s: seq<T>, key: T -> real)
    requires SortedDesc(s, key)
    ensures SortDesc(s, key) == s
  {
    if s != [] {
      assert SortedDesc(s[1..], key);
      SortDescOfSorted(s[1..], key);
    }
  }
}
