// ORDER BY on one numeric key, and Python's `list.sort(key=…, reverse=…)`.
// Both are modelled by one stable insertion sort: SQL leaves the order of
// equal keys open, and Python's sort keeps equal keys in input order.

module Ordering {
  import opened Common
  import opened Records

  /** `a` may come before `b`: descending (`desc`) or ascending by `key`, NULL lowest. */
  predicate Precedes<T>(a: T, b: T, key: T -> Option<real>, desc: bool)
  {
    if desc then KeyLe(key(b), key(a)) else KeyLe(key(a), key(b))
  }

  predicate SortedBy<T>(s: seq<T>, key: T -> Option<real>, desc: bool)
  {
    forall i, j :: 0 <= i < j < |s| ==> Precedes(s[i], s[j], key, desc)
  }

  /** Puts `x` in front of the first element it may precede. */
  function Insert<T>(x: T, s: seq<T>, key: T -> Option<real>, desc: bool): (r: seq<T>)
    ensures multiset(r) == multiset(s) + multiset{x}
    decreases |s|
  {
    if s == [] || Precedes(x, s[0], key, desc) then [x] + s
    else
      assert s == [s[0]] + s[1..];
      [s[0]] + Insert(x, s[1..], key, desc)
  }

  function Sort<T>(s: seq<T>, key: T -> Option<real>, desc: bool): (r: seq<T>)
    ensures multiset(r) == multiset(s)
    decreases |s|
  {
    if s == [] then []
    else
      assert s == [s[0]] + s[1..];
      Insert(s[0], Sort(s[1..], key, desc), key, desc)
  }

  lemma PrecedesTotal<T>(a: T, b: T, key: T -> Option<real>, desc: bool)
    ensures Precedes(a, b, key, desc) || Precedes(b, a, key, desc)
  {
  }

  lemma {:induction false} InsertSorted<T>(x: T, s: seq<T>, key: T -> Option<real>, desc: bool)
    requires SortedBy(s, key, desc)
    ensures SortedBy(Insert(x, s, key, desc), key, desc)
    decreases |s|
  {
    if s == [] || Precedes(x, s[0], key, desc) {
    } else {
      InsertSorted(x, s[1..], key, desc);
      var t := Insert(x, s[1..], key, desc);
      assert multiset(t) == multiset(s[1..]) + multiset{x};
      forall j | 0 < j < |[s[0]] + t| ensures Precedes(s[0], ([s[0]] + t)[j], key, desc) {
        var y := t[j - 1];
        assert y in multiset(t);
        if y == x {
          PrecedesTotal(x, s[0], key, desc);
        } else {
          assert y in multiset(s[1..]);
          assert y in s[1..];
          var k :| 0 <= k < |s[1..]| && s[1..][k] == y;
          assert s[k + 1] == y;
        }
      }
    }
  }

  /** The sort orders its output by the key. */
  lemma {:induction false} SortSorted<T>(s: seq<T>, key: T -> Option<real>, desc: bool)
    ensures SortedBy(Sort(s, key, desc), key, desc)
    decreases |s|
  {
    if s != [] {
      SortSorted(s[1..], key, desc);
      InsertSorted(s[0], Sort(s[1..], key, desc), key, desc);
    }
  }

  /** The elements whose key is `k`. */
  function HasKey<T>(key: T -> Option<real>, k: Option<real>): T -> bool
  {
    y => key(y) == k
  }

  lemma {:induction false} InsertSameKey<T(!new)>(x: T, s: seq<T>, key: T -> Option<real>, desc: bool, k: Option<real>)
    ensures Filter(Insert(x, s, key, desc), HasKey(key, k))
         == (if key(x) == k then [x] else []) + Filter(s, HasKey(key, k))
    decreases |s|
  {
    if s == [] || Precedes(x, s[0], key, desc) {
      assert ([x] + s)[1..] == s;
    } else {
      InsertSameKey(x, s[1..], key, desc, k);
      var r := [s[0]] + Insert(x, s[1..], key, desc);
      assert r[1..] == Insert(x, s[1..], key, desc);
    }
  }

  /** Stability: the elements sharing one key keep their input order. */
  lemma {:induction false} SortStable<T(!new)>(s: seq<T>, key: T -> Option<real>, desc: bool, k: Option<real>)
    ensures Filter(Sort(s, key, desc), HasKey(key, k)) == Filter(s, HasKey(key, k))
    decreases |s|
  {
    if s != [] {
      SortStable(s[1..], key, desc, k);
      InsertSameKey(s[0], Sort(s[1..], key, desc), key, desc, k);
    }
  }

  /** LIMIT after ORDER BY keeps a top-k: every element left out comes after every element kept. */
  lemma TakeSorted<T>(s: seq<T>, n: nat, key: T -> Option<real>, desc: bool)
    requires SortedBy(s, key, desc)
    ensures SortedBy(Take(s, n), key, desc)
    ensures forall x, y :: x in Take(s, n) && y in s && y !in Take(s, n) ==> Precedes(x, y, key, desc)
  {
    var r := Take(s, n);
    forall x, y | x in r && y in s && y !in r ensures Precedes(x, y, key, desc) {
      var i :| 0 <= i < |r| && r[i] == x;
      var j :| 0 <= j < |s| && s[j] == y;
    }
  }
}
