/** Python's `list.sort(key=..., reverse=True)`: a stable sort into non-increasing
    key order. The algorithm CPython uses is not modelled; the result is specified by
    an insertion sort and characterised by the three lemmas at the end: the result is
    a permutation, it is non-increasing, and elements with equal keys keep their
    relative order. */
module StableSort {

  /** Puts `x` after every element whose key is larger and before the rest. */
  function Insert<T>(x: T, s: seq<T>, key: T -> real): seq<T> {
    if |s| == 0 || key(s[0]) <= key(x) then [x] + s
    else [s[0]] + Insert(x, s[1..], key)
  }

  /** The list sorted by `key`, largest first, equal keys in their original order. */
  function SortDesc<T>(s: seq<T>, key: T -> real): seq<T> {
    if |s| == 0 then [] else Insert(s[0], SortDesc(s[1..], key), key)
  }

  ghost predicate NonIncreasing<T>(s: seq<T>, key: T -> real) {
    forall i, j :: 0 <= i < j < |s| ==> key(s[i]) >= key(s[j])
  }

  /** The subsequence of the elements whose key is `v`, in list order. */
  function WithKey<T>(s: seq<T>, key: T -> real, v: real): seq<T> {
    if |s| == 0 then []
    else (if key(s[0]) == v then [s[0]] else []) + WithKey(s[1..], key, v)
  }

  lemma {:induction false} InsertPermutes<T>(x: T, s: seq<T>, key: T -> real)
    ensures multiset(Insert(x, s, key)) == multiset(s) + multiset{x}
  {
    if |s| > 0 && key(s[0]) > key(x) {
      InsertPermutes(x, s[1..], key);
      assert s == [s[0]] + s[1..];
    }
  }

  lemma {:induction false} InsertOrdered<T>(x: T, s: seq<T>, key: T -> real)
    requires NonIncreasing(s, key)
    ensures NonIncreasing(Insert(x, s, key), key)
  {
    if |s| > 0 && key(s[0]) > key(x) {
      var t := s[1..];
      assert NonIncreasing(t, key) by {
        forall i, j | 0 <= i < j < |t| ensures key(t[i]) >= key(t[j]) {
          assert t[i] == s[i + 1] && t[j] == s[j + 1];
        }
      }
      InsertOrdered(x, t, key);
      InsertBelow(x, t, key, key(s[0]));
      assert Insert(x, s, key) == [s[0]] + Insert(x, t, key);
    }
  }

  /** Inserting below a bound that every element respects keeps every element below it. */
  lemma {:induction false} InsertBelow<T>(x: T, s: seq<T>, key: T -> real, b: real)
    requires key(x) <= b && forall i :: 0 <= i < |s| ==> key(s[i]) <= b
    ensures forall i :: 0 <= i < |Insert(x, s, key)| ==> key(Insert(x, s, key)[i]) <= b
  {
    if |s| > 0 && key(s[0]) > key(x) {
      var t := s[1..];
      assert forall i :: 0 <= i < |t| ==> t[i] == s[i + 1];
      InsertBelow(x, t, key, b);
      var r := Insert(x, t, key);
      assert Insert(x, s, key) == [s[0]] + r;
      forall i | 0 <= i < |[s[0]] + r| ensures key(([s[0]] + r)[i]) <= b {
        if i > 0 {
          assert ([s[0]] + r)[i] == r[i - 1];
        }
      }
    }
  }

  lemma {:induction false} WithKeyAppend<T>(a: seq<T>, b: seq<T>, key: T -> real, v: real)
    ensures WithKey(a + b, key, v) == WithKey(a, key, v) + WithKey(b, key, v)
  {
    if |a| > 0 {
      assert (a + b)[1..] == a[1..] + b;
      WithKeyAppend(a[1..], b, key, v);
    } else {
      assert a + b == b;
    }
  }

  lemma {:induction false} InsertWithKey<T>(x: T, s: seq<T>, key: T -> real, v: real)
    ensures WithKey(Insert(x, s, key), key, v)
         == (if key(x) == v then [x] else []) + WithKey(s, key, v)
  {
    if |s| == 0 || key(s[0]) <= key(x) {
      assert ([x] + s)[1..] == s;
    } else {
      var r := Insert(x, s[1..], key);
      InsertWithKey(x, s[1..], key, v);
      assert Insert(x, s, key) == [s[0]] + r;
      assert ([s[0]] + r)[0] == s[0] && ([s[0]] + r)[1..] == r;
      assert WithKey(s, key, v) == (if key(s[0]) == v then [s[0]] else []) + WithKey(s[1..], key, v);
      if key(x) == v {
        assert key(s[0]) != v;
      }
    }
  }

  lemma ConsMultiset<T>(s: seq<T>)
    requires |s| > 0
    ensures multiset(s) == multiset(s[1..]) + multiset{s[0]}
  {
    assert s == [s[0]] + s[1..];
  }

  /** The sorted list holds the same elements, each as often. */
  lemma {:induction false} SortDescPermutes<T>(s: seq<T>, key: T -> real)
    ensures multiset(SortDesc(s, key)) == multiset(s)
  {
    if |s| > 0 {
      var t := SortDesc(s[1..], key);
      SortDescPermutes(s[1..], key);
      InsertPermutes(s[0], t, key);
      assert SortDesc(s, key) == Insert(s[0], t, key);
      ConsMultiset(s);
    }
  }

  /** The sorted list is largest-key first. */
  lemma {:induction false} SortDescOrdered<T>(s: seq<T>, key: T -> real)
    ensures NonIncreasing(SortDesc(s, key), key)
  {
    if |s| > 0 {
      SortDescOrdered(s[1..], key);
      InsertOrdered(s[0], SortDesc(s[1..], key), key);
    }
  }

  /** Stability: for every key value, the elements carrying it appear in the sorted
      list in the same order as in the original list. */
  lemma {:induction false} SortDescStable<T>(s: seq<T>, key: T -> real, v: real)
    ensures WithKey(SortDesc(s, key), key, v) == WithKey(s, key, v)
  {
    if |s| > 0 {
      SortDescStable(s[1..], key, v);
      InsertWithKey(s[0], SortDesc(s[1..], key), key, v);
    }
  }

  /** A sort leaves the length unchanged. */
  lemma SortDescLength<T>(s: seq<T>, key: T -> real)
    ensures |SortDesc(s, key)| == |s|
  {
    SortDescPermutes(s, key);
    assert |multiset(SortDesc(s, key))| == |multiset(s)|;
  }
}
