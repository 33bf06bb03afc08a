/** `Array.prototype.filter` and the order it keeps; capped logs, newest first or newest last. */
module Seqs {

  /** `r` is `s` with some elements left out and the rest in their original order. */
  predicate IsSubseq<T(==)>(r: seq<T>, s: seq<T>)
    decreases |s|
  {
    if |r| == 0 then true
    else if |s| == 0 then false
    else if r[0] == s[0] then IsSubseq(r[1..], s[1..])
    else IsSubseq(r, s[1..])
  }

  /** `s.filter(p)`: exactly the elements satisfying `p`, in their original order. */
  function Filter<T(==,!new)>(s: seq<T>, p: T -> bool): (r: seq<T>)
    decreases |s|
    ensures |r| <= |s|
    ensures forall x :: x in r <==> x in s && p(x)
    ensures forall k :: 0 <= k < |r| ==> p(r[k])
    ensures IsSubseq(r, s)
  {
    if |s| == 0 then []
    else
      var rest := Filter(s[1..], p);
      assert s == [s[0]] + s[1..];
      if p(s[0]) then
        assert ([s[0]] + rest)[1..] == rest;
        [s[0]] + rest
      else
        assert |rest| > 0 ==> rest[0] != s[0];
        rest
  }

  /** A relation that holds between every earlier and later element of `s` still holds in
      any subsequence of `s`. */
  lemma {:induction false} SubseqKeepsPairwise<T>(r: seq<T>, s: seq<T>, rel: (T, T) -> bool)
    requires IsSubseq(r, s)
    requires forall i, j :: 0 <= i < j < |s| ==> rel(s[i], s[j])
    ensures forall i, j :: 0 <= i < j < |r| ==> rel(r[i], r[j])
    decreases |s|
  {
    if |r| > 0 {
      assert |s| > 0;
      if r[0] == s[0] {
        SubseqKeepsPairwise(r[1..], s[1..], rel);
        SubseqMembers(r[1..], s[1..]);
        forall j | 0 < j < |r| ensures rel(r[0], r[j]) {
          assert r[j] == r[1..][j - 1] && r[j] in r[1..];
          assert r[j] in s[1..];
          var k :| 0 <= k < |s[1..]| && s[1..][k] == r[j];
          assert s[k + 1] == r[j];
        }
        forall i, j | 0 < i < j < |r| ensures rel(r[i], r[j]) {
          assert r[i] == r[1..][i - 1] && r[j] == r[1..][j - 1];
        }
      } else {
        SubseqKeepsPairwise(r, s[1..], rel);
      }
    }
  }

  lemma {:induction false} SubseqMembers<T>(r: seq<T>, s: seq<T>)
    requires IsSubseq(r, s)
    ensures forall x :: x in r ==> x in s
    decreases |s|
  {
    if |r| > 0 {
      if r[0] == s[0] {
        SubseqMembers(r[1..], s[1..]);
        assert r == [r[0]] + r[1..];
      } else {
        SubseqMembers(r, s[1..]);
      }
    }
  }

  lemma {:induction false} SubseqTransitive<T>(a: seq<T>, b: seq<T>, c: seq<T>)
    requires IsSubseq(a, b) && IsSubseq(b, c)
    ensures IsSubseq(a, c)
    decreases |c|
  {
    if |a| > 0 {
      assert |b| > 0 && |c| > 0;
      if b[0] == c[0] {
        if a[0] == b[0] {
          SubseqTransitive(a[1..], b[1..], c[1..]);
        } else {
          SubseqTransitive(a, b[1..], c[1..]);
          SubseqTail(a, c);
        }
      } else {
        SubseqTransitive(a, b, c[1..]);
        SubseqTail(a, c);
      }
    }
  }

  /** A subsequence of the tail of `c` is a subsequence of `c`. */
  lemma {:induction false} SubseqTail<T>(a: seq<T>, c: seq<T>)
    requires |c| > 0 && IsSubseq(a, c[1..])
    ensures IsSubseq(a, c)
    decreases |c|, 0
  {
    if |a| > 0 && a[0] == c[0] {
      SubseqDropHead(a, c[1..]);
    }
  }

  /** Leaving out the first element of a subsequence gives a subsequence. */
  lemma {:induction false} SubseqDropHead<T>(a: seq<T>, b: seq<T>)
    requires |a| > 0 && IsSubseq(a, b)
    ensures IsSubseq(a[1..], b)
    decreases |b|, 1
  {
    if a[0] == b[0] {
      SubseqTail(a[1..], b);
    } else {
      SubseqDropHead(a, b[1..]);
      SubseqTail(a[1..], b);
    }
  }

  /** Filtering with a predicate every element satisfies keeps the sequence as it is. */
  lemma {:induction false} FilterKeepsAll<T(!new)>(s: seq<T>, p: T -> bool)
    requires forall k :: 0 <= k < |s| ==> p(s[k])
    ensures Filter(s, p) == s
    decreases |s|
  {
    if |s| > 0 {
      FilterKeepsAll(s[1..], p);
    }
  }

  /** An element the predicate rejects, appended at the end, does not show in the filtered sequence. */
  lemma {:induction false} FilterDropsLast<T(!new)>(s: seq<T>, x: T, p: T -> bool)
    requires !p(x)
    ensures Filter(s + [x], p) == Filter(s, p)
    decreases |s|
  {
    if |s| == 0 {
      assert ([] + [x])[1..] == [];
    } else {
      assert (s + [x])[1..] == s[1..] + [x];
      FilterDropsLast(s[1..], x, p);
    }
  }

  // ----- Capped logs, newest first -----

  function Reversed<T>(s: seq<T>): (r: seq<T>)
    ensures |r| == |s|
    ensures forall k :: 0 <= k < |s| ==> r[k] == s[|s| - 1 - k]
  {
    if |s| == 0 then [] else Reversed(s[1..]) + [s[0]]
  }

  function Min(a: nat, b: nat): nat {
    if a < b then a else b
  }

  /** `e` in front of `log`, which keeps at most `cap` elements: the oldest one drops out when full. */
  function PushCapped<T>(log: seq<T>, e: T, cap: nat): (r: seq<T>)
    requires cap > 0
    ensures 0 < |r| <= cap && r[0] == e
    ensures |r| == Min(cap, |log| + 1)
    ensures r[1..] == log[..|r| - 1]
  {
    [e] + log[..Min(cap - 1, |log|)]
  }

  /** Two pushes onto a capped log: the entries under the two new ones are the log's newest, in order. */
  lemma PushedTwice<T>(log: seq<T>, once: seq<T>, twice: seq<T>)
    requires 0 < |once| <= |log| + 1 && once[1..] == log[..|once| - 1]
    requires 1 < |twice| <= |once| + 1 && twice[1..] == once[..|twice| - 1]
    ensures |twice| <= |log| + 2 && twice[2..] == log[..|twice| - 2]
  {
    forall k | 0 <= k < |twice| - 2
      ensures twice[2..][k] == log[k]
    {
      assert twice[2 + k] == twice[1..][1 + k] == once[1 + k] == once[1..][k];
    }
  }

  /**
   * One push followed by `rest`, against all of `[e] + rest` at once: either
   * way the log is the newest `cap` of everything, newest first.
   */
  lemma {:induction false} PushCappedStep<T>(log: seq<T>, e: T, rest: seq<T>, cap: nat)
    requires 0 < cap && |log| <= cap
    ensures var pushed := PushCapped(log, e, cap);
            (Reversed(rest) + pushed)[..Min(cap, |rest| + |pushed|)]
            == (Reversed([e] + rest) + log)[..Min(cap, |rest| + 1 + |log|)]
  {
    var pushed := PushCapped(log, e, cap);
    var a := (Reversed(rest) + pushed)[..Min(cap, |rest| + |pushed|)];
    var b := (Reversed([e] + rest) + log)[..Min(cap, |rest| + 1 + |log|)];
    assert ([e] + rest)[1..] == rest;
    assert Reversed([e] + rest) == Reversed(rest) + [e];
    assert |a| == |b|;
    forall k | 0 <= k < |a| ensures a[k] == b[k] {
      if k < |rest| {
        assert a[k] == Reversed(rest)[k] == b[k];
      } else if k == |rest| {
        assert a[k] == pushed[0] == e;
      } else {
        assert a[k] == pushed[k - |rest|] == log[k - |rest| - 1];
      }
    }
  }

  /**
   * One element appended to a log capped at `cap` (the oldest dropping out
   * when full), then the rest: if the rest leaves the newest elements of
   * everything after that first append, it leaves the newest of everything.
   */
  lemma AppendCappedStep<T>(log: seq<T>, next: seq<T>, es: seq<T>, r: seq<T>, cap: nat)
    requires 0 < cap && |log| <= cap && |es| > 0
    requires next == if |log| < cap then log + [es[0]] else log[1..] + [es[0]]
    requires |r| == Min(cap, |next| + |es| - 1) && r == (next + es[1..])[|next| + |es| - 1 - |r|..]
    ensures |r| == Min(cap, |log| + |es|) && r == (log + es)[|log| + |es| - |r|..]
  {
    var all := log + es;
    var dropped := if |log| < cap then 0 else 1;
    assert next + es[1..] == all[dropped..];
    assert all[dropped..][|all| - dropped - |r|..] == all[|all| - |r|..];
  }
}
