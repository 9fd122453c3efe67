/**
 * `Array.prototype.sort` with a comparator of the form `(a, b) => key(a) - key(b)`.
 * The ECMAScript standard (since its 2019 edition) requires the sort to be stable,
 * and a stable sort by a key has exactly one possible outcome: the sorted
 * permutation in which elements with equal keys keep their original order.
 * `SortBy` defines that outcome by insertion; `SortByIsTheStableSort` shows that
 * any ordering with those properties is this one, whatever algorithm produced it.
 */
module StableSort {

  /** Ascending by key. */
  predicate SortedBy<T>(s: seq<T>, key: T -> int) {
    forall i, j :: 0 <= i < j < |s| ==> key(s[i]) <= key(s[j])
  }

  /** The elements of `s` whose key is `v`, in their order in `s`. */
  function KeyFilter<T>(s: seq<T>, key: T -> int, v: int): seq<T>
  {
    if s == [] then [] else (if key(s[0]) == v then [s[0]] else []) + KeyFilter(s[1..], key, v)
  }

  /** Inserts `x` after every element whose key is at most `key(x)`. */
  function Insert<T>(x: T, s: seq<T>, key: T -> int): (r: seq<T>)
    ensures |r| == |s| + 1
    ensures multiset(r) == multiset(s) + multiset{x}
  {
    if s == [] then [x]
    else if key(x) < key(s[0]) then [x] + s
    else
      assert s == [s[0]] + s[1..];
      [s[0]] + Insert(x, s[1..], key)
  }

  /** The elements after the first of a sorted sequence are sorted, and none is below the first. */
  lemma SortedTail<T>(s: seq<T>, key: T -> int)
    requires s != [] && SortedBy(s, key)
    ensures SortedBy(s[1..], key)
    ensures forall i :: 0 <= i < |s| ==> key(s[0]) <= key(s[i])
  {
  }

  /** Inserting into a sorted sequence keeps it sorted. */
  lemma {:induction false} InsertKeepsSorted<T>(x: T, s: seq<T>, key: T -> int)
    requires SortedBy(s, key)
    ensures SortedBy(Insert(x, s, key), key)
    decreases |s|
  {
    if s == [] {
    } else if key(x) < key(s[0]) {
      SortedTail(s, key);
      SortedCons(x, s, key);
    } else {
      var rest := Insert(x, s[1..], key);
      SortedTail(s, key);
      InsertKeepsSorted(x, s[1..], key);
      forall j | 0 <= j < |rest| ensures key(s[0]) <= key(rest[j]) {
        assert rest[j] in multiset(rest);
        assert rest[j] == x || rest[j] in multiset(s[1..]);
      }
      SortedCons(s[0], rest, key);
    }
  }

  /** A sorted sequence stays sorted behind an element whose key is at most all of its keys. */
  lemma SortedCons<T>(h: T, s: seq<T>, key: T -> int)
    requires SortedBy(s, key)
    requires forall i :: 0 <= i < |s| ==> key(h) <= key(s[i])
    ensures SortedBy([h] + s, key)
  {
  }

  /** The stable sort of `s` by `key`. */
  function SortBy<T>(s: seq<T>, key: T -> int): (r: seq<T>)
    ensures |r| == |s|
    ensures multiset(r) == multiset(s)
    ensures SortedBy(r, key)
  {
    if s == [] then []
    else
      assert s == s[..|s| - 1] + [s[|s| - 1]];
      var sortedInit := SortBy(s[..|s| - 1], key);
      InsertKeepsSorted(s[|s| - 1], sortedInit, key);
      Insert(s[|s| - 1], sortedInit, key)
  }

  lemma AppendIsAssociative<T>(a: seq<T>, b: seq<T>, c: seq<T>)
    ensures a + (b + c) == (a + b) + c
  {
  }

  lemma {:induction false} KeyFilterAppend<T>(a: seq<T>, b: seq<T>, key: T -> int, v: int)
    ensures KeyFilter(a + b, key, v) == KeyFilter(a, key, v) + KeyFilter(b, key, v)
    decreases |a|
  {
    if a == [] {
      assert a + b == b;
    } else {
      var head := if key(a[0]) == v then [a[0]] else [];
      var left, right := KeyFilter(a[1..], key, v), KeyFilter(b, key, v);
      calc {
        KeyFilter(a + b, key, v);
      == { assert (a + b)[0] == a[0]; assert (a + b)[1..] == a[1..] + b; }
        head + KeyFilter(a[1..] + b, key, v);
      == { KeyFilterAppend(a[1..], b, key, v); }
        head + (left + right);
      == { AppendIsAssociative(head, left, right); }
        KeyFilter(a, key, v) + right;
      }
    }
  }

  /** An element is kept by `KeyFilter` exactly when it occurs and has the key. */
  lemma {:induction false} KeyFilterMembers<T>(s: seq<T>, key: T -> int, v: int)
    ensures forall e :: e in KeyFilter(s, key, v) <==> e in s && key(e) == v
    decreases |s|
  {
    if s != [] {
      KeyFilterMembers(s[1..], key, v);
      assert s == [s[0]] + s[1..];
    }
  }

  lemma {:induction false} KeyFilterAllAbove<T>(s: seq<T>, key: T -> int, v: int)
    requires forall i :: 0 <= i < |s| ==> key(s[i]) > v
    ensures KeyFilter(s, key, v) == []
    decreases |s|
  {
    if s != [] {
      KeyFilterAllAbove(s[1..], key, v);
    }
  }

  /** Inserting into a sorted sequence puts `x` after every element with its key. */
  lemma {:induction false} InsertIsStable<T>(x: T, s: seq<T>, key: T -> int, v: int)
    requires SortedBy(s, key)
    ensures KeyFilter(Insert(x, s, key), key, v) == KeyFilter(s, key, v) + (if key(x) == v then [x] else [])
    decreases |s|
  {
    var mine := if key(x) == v then [x] else [];
    if s == [] {
      assert Insert(x, s, key) == [x];
      assert KeyFilter([x], key, v) == mine + KeyFilter([x][1..], key, v);
      assert [x][1..] == [];
    } else if key(x) < key(s[0]) {
      SortedTail(s, key);
      InsertInFront(x, s, key, v);
    } else {
      SortedTail(s, key);
      InsertBehind(x, s, key, v);
    }
  }

  lemma InsertInFront<T>(x: T, s: seq<T>, key: T -> int, v: int)
    requires s != [] && key(x) < key(s[0])
    requires forall i :: 0 <= i < |s| ==> key(s[0]) <= key(s[i])
    ensures KeyFilter(Insert(x, s, key), key, v) == KeyFilter(s, key, v) + (if key(x) == v then [x] else [])
  {
    var mine := if key(x) == v then [x] else [];
    var rest := KeyFilter(s, key, v);
    calc {
      KeyFilter(Insert(x, s, key), key, v);
    == { assert ([x] + s)[0] == x; assert ([x] + s)[1..] == s; }
      mine + rest;
    == { if key(x) == v { KeyFilterAllAbove(s, key, v); assert rest == []; } else { assert mine == []; } }
      rest + mine;
    }
  }

  lemma {:induction false} InsertBehind<T>(x: T, s: seq<T>, key: T -> int, v: int)
    requires s != [] && key(s[0]) <= key(x)
    requires SortedBy(s[1..], key)
    ensures KeyFilter(Insert(x, s, key), key, v) == KeyFilter(s, key, v) + (if key(x) == v then [x] else [])
    decreases |s|, 0
  {
    var mine := if key(x) == v then [x] else [];
    var tail := Insert(x, s[1..], key);
    var head := if key(s[0]) == v then [s[0]] else [];
    var rest := KeyFilter(s[1..], key, v);
    calc {
      KeyFilter(Insert(x, s, key), key, v);
    == { assert ([s[0]] + tail)[0] == s[0]; assert ([s[0]] + tail)[1..] == tail; }
      head + KeyFilter(tail, key, v);
    == { InsertIsStable(x, s[1..], key, v); }
      head + (rest + mine);
    == { AppendIsAssociative(head, rest, mine); }
      KeyFilter(s, key, v) + mine;
    }
  }

  /** Elements with equal keys keep their relative order. */
  lemma {:induction false} SortByIsStable<T>(s: seq<T>, key: T -> int, v: int)
    ensures KeyFilter(SortBy(s, key), key, v) == KeyFilter(s, key, v)
    decreases |s|
  {
    if s != [] {
      var init, last := s[..|s| - 1], s[|s| - 1];
      assert s == init + [last];
      var sortedInit := SortBy(init, key);
      var tail := if key(last) == v then [last] else [];
      var common := KeyFilter(init, key, v) + tail;
      assert KeyFilter(SortBy(s, key), key, v) == common by {
        SortByIsStable(init, key, v);
        InsertIsStable(last, sortedInit, key, v);
      }
      assert KeyFilter(s, key, v) == common by {
        KeyFilterAppend(init, [last], key, v);
        assert KeyFilter([last], key, v) == tail;
      }
    }
  }

  lemma HeadKeyGroupIsNonEmpty<T>(s: seq<T>, key: T -> int)
    ensures s != [] ==> KeyFilter(s, key, key(s[0])) != []
  {
  }

  /**
   * Two sorted sequences that agree on the order of every group of equal keys
   * are the same sequence: a stable sort has only one possible outcome.
   */
  lemma {:induction false} StableOrderIsUnique<T>(r: seq<T>, t: seq<T>, key: T -> int)
    requires SortedBy(r, key) && SortedBy(t, key)
    requires forall v :: KeyFilter(r, key, v) == KeyFilter(t, key, v)
    ensures r == t
    decreases |r|
  {
    if r == [] || t == [] {
      // Neither can hold an element: its key group would be missing from the other.
      HeadKeyGroupIsNonEmpty(r, key);
      HeadKeyGroupIsNonEmpty(t, key);
    } else {
      var v0, v1 := key(r[0]), key(t[0]);
      KeyFilterMembers(r, key, v1);
      KeyFilterMembers(t, key, v0);
      assert r[0] in KeyFilter(t, key, v0);
      assert t[0] in KeyFilter(r, key, v1);
      assert v0 == v1;
      assert r[0] == t[0] by {
        assert KeyFilter(r, key, v0)[0] == r[0];
        assert KeyFilter(t, key, v0)[0] == t[0];
      }
      forall v ensures KeyFilter(r[1..], key, v) == KeyFilter(t[1..], key, v) {
        var head := if v0 == v then [r[0]] else [];
        assert KeyFilter(r, key, v) == head + KeyFilter(r[1..], key, v);
        assert KeyFilter(t, key, v) == head + KeyFilter(t[1..], key, v);
        assert (head + KeyFilter(r[1..], key, v))[|head|..] == KeyFilter(r[1..], key, v);
        assert (head + KeyFilter(t[1..], key, v))[|head|..] == KeyFilter(t[1..], key, v);
      }
      StableOrderIsUnique(r[1..], t[1..], key);
      assert r == [r[0]] + r[1..] && t == [t[0]] + t[1..];
    }
  }

  /** Any sorted ordering of `s` that keeps equal keys in their order is `SortBy(s, key)`. */
  lemma SortByIsTheStableSort<T>(s: seq<T>, r: seq<T>, key: T -> int)
    requires SortedBy(r, key)
    requires forall v :: KeyFilter(r, key, v) == KeyFilter(s, key, v)
    ensures r == SortBy(s, key)
  {
    forall v ensures KeyFilter(r, key, v) == KeyFilter(SortBy(s, key), key, v) {
      SortByIsStable(s, key, v);
    }
    StableOrderIsUnique(r, SortBy(s, key), key);
  }
}
