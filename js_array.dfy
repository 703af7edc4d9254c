/**
 * `Array.prototype.sort` with a comparator that orders elements by a string
 * key (`(a, b) => key(a).localeCompare(key(b))`). Since ECMAScript 2019 the
 * sort is required to be stable, so it is modelled as a stable insertion
 * sort; elements with equal keys keep their input order.
 */
module JsArray {
  import opened Strings

  /** Places `x` in front of the first element whose key is not below `x`'s. */
  function Insert<T>(x: T, s: seq<T>, key: T -> string): (r: seq<T>)
    ensures multiset(r) == multiset(s) + multiset{x}
    ensures |r| == |s| + 1
  {
    if |s| == 0 then [x]
    else if Le(key(x), key(s[0])) then [x] + s
    else
      assert s == [s[0]] + s[1..];
      [s[0]] + Insert(x, s[1..], key)
  }

  lemma InsertHead<T>(x: T, s: seq<T>, key: T -> string)
    ensures Insert(x, s, key)[0] == if |s| == 0 || Le(key(x), key(s[0])) then x else s[0]
  {
  }

  /** The sorted copy of `s`, ascending by `key`. */
  function SortBy<T>(s: seq<T>, key: T -> string): (r: seq<T>)
    ensures multiset(r) == multiset(s)
    ensures |r| == |s|
  {
    if |s| == 0 then []
    else
      assert s == [s[0]] + s[1..];
      Insert(s[0], SortBy(s[1..], key), key)
  }

  ghost predicate SortedBy<T>(s: seq<T>, key: T -> string)
  {
    forall i, j :: 0 <= i < j < |s| ==> Le(key(s[i]), key(s[j]))
  }

  /** The elements of `s` whose key is `k`, in their order in `s`. */
  function WithKey<T>(s: seq<T>, key: T -> string, k: string): seq<T>
  {
    if |s| == 0 then []
    else (if key(s[0]) == k then [s[0]] else []) + WithKey(s[1..], key, k)
  }

  lemma {:induction false} InsertSorted<T>(x: T, s: seq<T>, key: T -> string)
    requires SortedBy(s, key)
    ensures SortedBy(Insert(x, s, key), key)
  {
    if |s| > 0 {
      if Le(key(x), key(s[0])) {
        InsertInFront(x, s, key);
      } else {
        InsertSorted(x, s[1..], key);
        InsertBehind(x, s, key);
      }
    }
  }

  lemma InsertInFront<T>(x: T, s: seq<T>, key: T -> string)
    requires SortedBy(s, key) && |s| > 0 && Le(key(x), key(s[0]))
    ensures SortedBy(Insert(x, s, key), key)
  {
    var r := Insert(x, s, key);
    assert r == [x] + s;
    forall i, j | 0 <= i < j < |r| ensures Le(key(r[i]), key(r[j])) {
      assert r[j] == s[j - 1];
      if i == 0 {
        assert r[i] == x;
        if j > 1 {
          assert Le(key(s[0]), key(s[j - 1]));
          LeTransitive(key(x), key(s[0]), key(s[j - 1]));
        }
      } else {
        assert r[i] == s[i - 1];
      }
    }
  }

  lemma InsertBehind<T>(x: T, s: seq<T>, key: T -> string)
    requires SortedBy(s, key) && |s| > 0 && !Le(key(x), key(s[0]))
    requires SortedBy(Insert(x, s[1..], key), key)
    ensures SortedBy(Insert(x, s, key), key)
  {
    var r := Insert(x, s, key);
    var t := Insert(x, s[1..], key);
    assert r == [s[0]] + t;
    LeTotal(key(x), key(s[0]));
    forall j | 0 <= j < |t| ensures Le(key(s[0]), key(t[j])) {
      assert t[j] in multiset(t);
      if t[j] != x {
        assert t[j] in multiset(s[1..]);
        var m :| 0 <= m < |s| - 1 && s[1..][m] == t[j];
        assert s[m + 1] == t[j];
      }
    }
    forall i, j | 0 <= i < j < |r| ensures Le(key(r[i]), key(r[j])) {
      assert r[j] == t[j - 1];
      if i > 0 {
        assert r[i] == t[i - 1];
      }
    }
  }

  lemma {:induction false} SortBySorted<T>(s: seq<T>, key: T -> string)
    ensures SortedBy(SortBy(s, key), key)
  {
    if |s| > 0 {
      SortBySorted(s[1..], key);
      InsertSorted(s[0], SortBy(s[1..], key), key);
    }
  }

  lemma {:induction false} InsertWithKey<T>(x: T, s: seq<T>, key: T -> string, k: string)
    ensures WithKey(Insert(x, s, key), key, k) == (if key(x) == k then [x] else []) + WithKey(s, key, k)
  {
    var r := Insert(x, s, key);
    if |s| == 0 || Le(key(x), key(s[0])) {
      assert r[0] == x && r[1..] == s;
      assert WithKey(r, key, k) == (if key(x) == k then [x] else []) + WithKey(s, key, k);
    } else {
      var t := Insert(x, s[1..], key);
      assert r[0] == s[0] && r[1..] == t;
      LeReflexive(key(x));
      InsertWithKey(x, s[1..], key, k);
      if key(s[0]) == k {
        assert key(x) != k;
        assert WithKey(t, key, k) == WithKey(s[1..], key, k);
        assert WithKey(r, key, k) == [s[0]] + WithKey(t, key, k);
        assert WithKey(s, key, k) == [s[0]] + WithKey(s[1..], key, k);
      } else {
        assert WithKey(r, key, k) == WithKey(t, key, k);
        assert WithKey(s, key, k) == WithKey(s[1..], key, k);
      }
    }
  }

  lemma {:induction false} SortByStable<T>(s: seq<T>, key: T -> string, k: string)
    ensures WithKey(SortBy(s, key), key, k) == WithKey(s, key, k)
  {
    if |s| > 0 {
      SortByStable(s[1..], key, k);
      InsertWithKey(s[0], SortBy(s[1..], key), key, k);
    }
  }
}
