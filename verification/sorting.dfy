/** `Array.prototype.sort` with a numeric comparator `(a, b) => key(a) - key(b)`. */
module Sorting {

  ghost predicate SortedBy<T>(s: seq<T>, key: T -> real) {
    forall i, j :: 0 <= i < j < |s| ==> key(s[i]) <= key(s[j])
  }

  /** Places `x` before the first element whose key is not smaller. */
  function Insert<T>(x: T, s: seq<T>, key: T -> real): (r: seq<T>)
    requires SortedBy(s, key)
    ensures SortedBy(r, key)
    ensures multiset(r) == multiset(s) + multiset{x}
    ensures |r| == |s| + 1
    ensures r[0] == x || (|s| > 0 && r[0] == s[0])
  {
    if |s| == 0 then [x]
    else if key(x) <= key(s[0]) then
      ConsSorted(x, s, key);
      [x] + s
    else
      assert SortedBy(s[1..], key) by { TailSorted(s, key); }
      var rest := Insert(x, s[1..], key);
      assert key(s[0]) <= key(rest[0]) by {
        if rest[0] != x { assert rest[0] == s[1]; }
      }
      ConsSorted(s[0], rest, key);
      KeepsHead(s, x, rest);
      [s[0]] + rest
  }

  /** An element no larger than the head of a sorted sequence can go in front of it. */
  lemma ConsSorted<T>(h: T, s: seq<T>, key: T -> real)
    requires SortedBy(s, key) && |s| > 0 && key(h) <= key(s[0])
    ensures SortedBy([h] + s, key)
  {
    var r := [h] + s;
    forall i, j | 0 <= i < j < |r|
      ensures key(r[i]) <= key(r[j])
    {
      assert r[j] == s[j - 1];
      if i > 0 { assert r[i] == s[i - 1]; }
    }
  }

  /** Putting the head back in front of the tail with `x` inserted holds the elements of `s` and `x`. */
  lemma KeepsHead<T>(s: seq<T>, x: T, rest: seq<T>)
    requires |s| > 0 && multiset(rest) == multiset(s[1..]) + multiset{x}
    ensures multiset([s[0]] + rest) == multiset(s) + multiset{x}
  {
    calc {
      multiset([s[0]] + rest);
      multiset([s[0]]) + multiset(rest);
      multiset([s[0]]) + (multiset(s[1..]) + multiset{x});
      { assert s == [s[0]] + s[1..]; }
      multiset(s) + multiset{x};
    }
  }

  lemma TailSorted<T>(s: seq<T>, key: T -> real)
    requires SortedBy(s, key) && |s| > 0
    ensures SortedBy(s[1..], key)
  {
    forall i, j | 0 <= i < j < |s| - 1
      ensures key(s[1..][i]) <= key(s[1..][j])
    {
      assert s[1..][i] == s[i + 1] && s[1..][j] == s[j + 1];
    }
  }

  /** Sorts by ascending key; the result is a permutation of the input. */
  function SortBy<T>(s: seq<T>, key: T -> real): (r: seq<T>)
    ensures SortedBy(r, key)
    ensures multiset(r) == multiset(s)
    ensures |r| == |s|
  {
    if |s| == 0 then []
    else
      assert s == [s[0]] + s[1..];
      Insert(s[0], SortBy(s[1..], key), key)
  }

  /** A sorted copy holds the same elements as the original. */
  lemma SameMembers<T>(s: seq<T>, r: seq<T>)
    requires multiset(r) == multiset(s)
    ensures forall x :: x in r <==> x in s
  {
    forall x ensures x in r <==> x in s {
      assert x in r <==> x in multiset(r);
      assert x in s <==> x in multiset(s);
    }
  }
}
