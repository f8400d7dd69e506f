/**
 A stable sort by key: Python's list.sort in the OCR service, sort.SliceStable in the orchestrator.
 Equal keys stay in their old order.
 */
module Sorting {

  datatype Key = Key(first: real, second: real)

  predicate Leq(a: Key, b: Key) {
    a.first < b.first || (a.first == b.first && a.second <= b.second)
  }

  function Insert<T>(key: T -> Key, x: T, s: seq<T>): seq<T> {
    if s == [] then [x]
    else if Leq(key(s[0]), key(x)) then [s[0]] + Insert(key, x, s[1..])
    else [x] + s
  }

  function Sort<T>(key: T -> Key, s: seq<T>): seq<T> {
    if s == [] then [] else Insert(key, s[|s| - 1], Sort(key, s[..|s| - 1]))
  }

  ghost predicate Sorted<T>(key: T -> Key, s: seq<T>) {
    forall i, j :: 0 <= i < j < |s| ==> Leq(key(s[i]), key(s[j]))
  }

  /** The elements with this key, in order. */
  function WithKey<T>(key: T -> Key, k: Key, s: seq<T>): seq<T> {
    if s == [] then [] else (if key(s[0]) == k then [s[0]] else []) + WithKey(key, k, s[1..])
  }

  lemma {:induction false} SortedSnoc<T>(key: T -> Key, x: T, s: seq<T>)
    ensures Sorted(key, [x] + s) <==> (Sorted(key, s) && forall i :: 0 <= i < |s| ==> Leq(key(x), key(s[i])))
  {
    if Sorted(key, [x] + s) {
      forall i, j | 0 <= i < j < |s|
        ensures Leq(key(s[i]), key(s[j]))
      {
        assert ([x] + s)[i + 1] == s[i] && ([x] + s)[j + 1] == s[j];
      }
      forall i | 0 <= i < |s|
        ensures Leq(key(x), key(s[i]))
      {
        assert ([x] + s)[0] == x && ([x] + s)[i + 1] == s[i];
      }
    }
  }

  lemma {:induction false} InsertSorted<T>(key: T -> Key, x: T, s: seq<T>)
    requires Sorted(key, s)
    ensures Sorted(key, Insert(key, x, s)) && multiset(Insert(key, x, s)) == multiset(s) + multiset{x}
  {
    if s != [] {
      assert s == [s[0]] + s[1..];
      SortedSnoc(key, s[0], s[1..]);
      InsertSorted(key, x, s[1..]);
      if Leq(key(s[0]), key(x)) {
        var rest := Insert(key, x, s[1..]);
        forall i | 0 <= i < |rest|
          ensures Leq(key(s[0]), key(rest[i]))
        {
          assert rest[i] in multiset(rest);
          assert rest[i] in s[1..] || rest[i] == x;
        }
        SortedSnoc(key, s[0], rest);
      } else {
        forall i | 0 <= i < |s|
          ensures Leq(key(x), key(s[i]))
        {
          assert i == 0 || Leq(key(s[0]), key(s[1..][i - 1]));
        }
        SortedSnoc(key, x, s);
      }
    }
  }

  lemma {:induction false} WithKeyConcat<T>(key: T -> Key, k: Key, a: seq<T>, b: seq<T>)
    ensures WithKey(key, k, a + b) == WithKey(key, k, a) + WithKey(key, k, b)
  {
    if a == [] {
      assert a + b == b;
    } else {
      assert (a + b)[1..] == a[1..] + b;
      WithKeyConcat(key, k, a[1..], b);
    }
  }

  lemma {:induction false} WithKeyNone<T>(key: T -> Key, k: Key, s: seq<T>)
    requires forall i :: 0 <= i < |s| ==> key(s[i]) != k
    ensures WithKey(key, k, s) == []
  {
    if s != [] {
      WithKeyNone(key, k, s[1..]);
    }
  }

  lemma {:induction false} InsertStable<T>(key: T -> Key, x: T, s: seq<T>, k: Key)
    requires Sorted(key, s)
    ensures WithKey(key, k, Insert(key, x, s)) == WithKey(key, k, s) + if key(x) == k then [x] else []
  {
    if s != [] {
      assert s == [s[0]] + s[1..];
      SortedSnoc(key, s[0], s[1..]);
      if Leq(key(s[0]), key(x)) {
        InsertStable(key, x, s[1..], k);
        assert ([s[0]] + Insert(key, x, s[1..]))[1..] == Insert(key, x, s[1..]);
      } else {
        WithKeyConcat(key, k, [x], s);
        if key(x) == k {
          WithKeyNone(key, k, s);
        }
        assert WithKey(key, k, [x]) == if key(x) == k then [x] else [];
      }
    }
  }

  /** Sorting permutes, sorts, and keeps elements of equal key in their old order. */
  lemma {:induction false} SortFacts<T>(key: T -> Key, s: seq<T>)
    ensures multiset(Sort(key, s)) == multiset(s) && |Sort(key, s)| == |s|
    ensures Sorted(key, Sort(key, s))
    ensures forall k :: WithKey(key, k, Sort(key, s)) == WithKey(key, k, s)
  {
    if s != [] {
      var front, last := s[..|s| - 1], s[|s| - 1];
      SortFacts(key, front);
      InsertSorted(key, last, Sort(key, front));
      assert s == front + [last];
      assert |multiset(Sort(key, s))| == |multiset(s)|;
      forall k
        ensures WithKey(key, k, Sort(key, s)) == WithKey(key, k, s)
      {
        InsertStable(key, last, Sort(key, front), k);
        WithKeyConcat(key, k, front, [last]);
      }
    }
  }

  lemma {:induction false} WithKeySome<T>(key: T -> Key, k: Key, s: seq<T>)
    requires WithKey(key, k, s) != []
    ensures exists i :: 0 <= i < |s| && key(s[i]) == k
  {
    if forall i :: 0 <= i < |s| ==> key(s[i]) != k {
      WithKeyNone(key, k, s);
    }
  }

  lemma {:induction false} HeadsAgree<T>(key: T -> Key, a: seq<T>, b: seq<T>)
    requires Sorted(key, a) && Sorted(key, b) && a != []
    requires forall k :: WithKey(key, k, a) == WithKey(key, k, b)
    ensures b != [] && a[0] == b[0]
  {
    assert WithKey(key, key(a[0]), a) != [];
    WithKeySome(key, key(a[0]), b);
    assert WithKey(key, key(b[0]), b) != [];
    WithKeySome(key, key(b[0]), a);
    assert key(a[0]) == key(b[0]);
    assert a[0] == WithKey(key, key(a[0]), a)[0] == WithKey(key, key(b[0]), b)[0] == b[0];
  }

  /** There is only one way to do so: any stable sort gives this result. */
  lemma {:induction false} StableSortUnique<T>(key: T -> Key, a: seq<T>, b: seq<T>)
    requires Sorted(key, a) && Sorted(key, b)
    requires forall k :: WithKey(key, k, a) == WithKey(key, k, b)
    ensures a == b
  {
    if a == [] {
      if b != [] {
        HeadsAgree(key, b, a);
      }
    } else {
      HeadsAgree(key, a, b);
      assert a == [a[0]] + a[1..] && b == [b[0]] + b[1..];
      SortedSnoc(key, a[0], a[1..]);
      SortedSnoc(key, b[0], b[1..]);
      forall k
        ensures WithKey(key, k, a[1..]) == WithKey(key, k, b[1..])
      {
        var head := if key(a[0]) == k then [a[0]] else [];
        var x, y := WithKey(key, k, a[1..]), WithKey(key, k, b[1..]);
        assert head + x == WithKey(key, k, a) == WithKey(key, k, b) == head + y;
        assert x == (head + x)[|head|..] && y == (head + y)[|head|..];
      }
      StableSortUnique(key, a[1..], b[1..]);
    }
  }
}
