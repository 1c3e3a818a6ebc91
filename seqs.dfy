/** Sequence helpers behind the handlers' `filter`, `sort` and `slice`. */
module Seqs {

  /** `Array.prototype.filter`: the elements satisfying `p`, in order. */
  function Filter<T(!new)>(s: seq<T>, p: T -> bool): (r: seq<T>)
    ensures |r| <= |s|
    ensures forall x :: x in r <==> x in s && p(x)
  {
    if s == [] then []
    else Filter(s[..|s| - 1], p) + (if p(s[|s| - 1]) then [s[|s| - 1]] else [])
  }

  /** Filtering keeps the order of the input: it distributes over `+`. */
  lemma {:induction false} FilterConcat<T(!new)>(a: seq<T>, b: seq<T>, p: T -> bool)
    ensures Filter(a + b, p) == Filter(a, p) + Filter(b, p)
    decreases |b|
  {
    if b == [] {
      assert a + b == a;
    } else {
      var b' := b[..|b| - 1];
      assert (a + b)[..|a + b| - 1] == a + b';
      assert (a + b)[|a + b| - 1] == b[|b| - 1];
      FilterConcat(a, b', p);
    }
  }

  /** A filter that rejects everything gives the empty sequence, and only then. */
  lemma {:induction false} FilterEmpty<T(!new)>(s: seq<T>, p: T -> bool)
    ensures Filter(s, p) == [] <==> forall i :: 0 <= i < |s| ==> !p(s[i])
  {
    if Filter(s, p) == [] {
      forall i | 0 <= i < |s| ensures !p(s[i]) {
        assert s[i] in s;
      }
    } else {
      var x := Filter(s, p)[0];
      assert x in Filter(s, p);
      var i :| 0 <= i < |s| && s[i] == x;
    }
  }

  /** An element of a non-empty sequence is in its front or is its last. */
  lemma InLast<T>(s: seq<T>)
    requires s != []
    ensures forall x :: x in s <==> x in s[..|s| - 1] || x == s[|s| - 1]
  {
    assert s == s[..|s| - 1] + [s[|s| - 1]];
  }

  ghost predicate SortedDesc<T>(s: seq<T>, key: T -> int) {
    forall i, j :: 0 <= i < j < |s| ==> key(s[i]) >= key(s[j])
  }

  /** Inserts `x` into a non-increasing sequence, before the first element
      whose key is smaller. */
  function InsertDesc<T>(s: seq<T>, x: T, key: T -> int): (r: seq<T>)
    requires SortedDesc(s, key)
    ensures SortedDesc(r, key)
    ensures multiset(r) == multiset(s) + multiset{x}
  {
    if s == [] then [x]
    else if key(x) >= key(s[0]) then [x] + s
    else
      var rest := InsertDesc(s[1..], x, key);
      InsertBehind(s, x, rest, key);
      [s[0]] + rest
  }

  /** Putting the head of `s` in front of the insertion into its tail keeps
      the order, since `x` and the tail rank no higher than the head. */
  lemma InsertBehind<T>(s: seq<T>, x: T, rest: seq<T>, key: T -> int)
    requires s != [] && SortedDesc(s, key) && key(x) < key(s[0])
    requires SortedDesc(rest, key) && multiset(rest) == multiset(s[1..]) + multiset{x}
    ensures SortedDesc([s[0]] + rest, key)
    ensures multiset([s[0]] + rest) == multiset(s) + multiset{x}
  {
    assert s == [s[0]] + s[1..];
    forall k | 0 <= k < |rest|
      ensures key(rest[k]) <= key(s[0])
    {
      assert rest[k] in multiset(rest);
      if rest[k] != x {
        assert rest[k] in multiset(s[1..]);
        var j :| 0 <= j < |s[1..]| && s[1..][j] == rest[k];
        assert s[j + 1] == rest[k];
      }
    }
  }

  /** The library sort of a JavaScript array with a comparator that orders by
      `key` descending (ties in any order). */
  method SortDesc<T>(s: seq<T>, key: T -> int) returns (r: seq<T>)
    ensures SortedDesc(r, key)
    ensures multiset(r) == multiset(s)
  {
    r := [];
    for i := 0 to |s|
      invariant SortedDesc(r, key)
      invariant multiset(r) == multiset(s[..i])
    {
      assert s[..i + 1] == s[..i] + [s[i]];
      r := InsertDesc(r, s[i], key);
    }
    assert s[..|s|] == s;
  }

  /** `r` is what `slice(0, n)` leaves of a descending sort of `all`: as many
      elements as fit, non-increasing, drawn from `all`, and no element left
      out has a larger key than one kept. */
  ghost predicate IsTopN<T>(r: seq<T>, all: seq<T>, n: nat, key: T -> int) {
    && |r| == (if |all| <= n then |all| else n)
    && SortedDesc(r, key)
    && multiset(r) <= multiset(all)
    && forall x, y :: x in multiset(all) - multiset(r) && y in r ==> key(x) <= key(y)
  }

  /** In a non-increasing sequence nothing after position `m` outranks
      anything before it. */
  lemma SortedSplit<T>(sorted: seq<T>, m: nat, key: T -> int)
    requires SortedDesc(sorted, key) && m <= |sorted|
    ensures forall x, y :: x in sorted[m..] && y in sorted[..m] ==> key(x) <= key(y)
  {
    forall x, y | x in sorted[m..] && y in sorted[..m]
      ensures key(x) <= key(y)
    {
      var i :| m <= i < |sorted| && sorted[i] == x;
      var j :| 0 <= j < m && sorted[j] == y;
    }
  }

  /** Cutting a sorted permutation of `all` to its first `n` elements gives
      the top `n` of `all`. */
  lemma TopPrefix<T>(sorted: seq<T>, all: seq<T>, n: nat, key: T -> int)
    requires SortedDesc(sorted, key) && multiset(sorted) == multiset(all)
    ensures IsTopN(sorted[..if |sorted| <= n then |sorted| else n], all, n, key)
  {
    var m := if |sorted| <= n then |sorted| else n;
    var r, rest := sorted[..m], sorted[m..];
    assert sorted == r + rest;
    assert multiset(all) == multiset(r) + multiset(rest);
    assert multiset(all) - multiset(r) == multiset(rest);
    SortedSplit(sorted, m, key);
    assert |r| == m;
    assert SortedDesc(r, key);
  }

  /** All elements of `s` are distinct. */
  ghost predicate Distinct<T>(s: seq<T>) {
    forall i, j :: 0 <= i < j < |s| ==> s[i] != s[j]
  }

  /** In a sequence without repetitions every value occurs at most once. */
  lemma {:induction false} DistinctOnce<T>(s: seq<T>, x: T)
    requires Distinct(s)
    ensures multiset(s)[x] <= 1
  {
    if s != [] {
      assert s == [s[0]] + s[1..];
      assert Distinct(s[1..]) by {
        forall i, j | 0 <= i < j < |s[1..]| ensures s[1..][i] != s[1..][j] {
          assert s[1..][i] == s[i + 1] && s[1..][j] == s[j + 1];
        }
      }
      DistinctOnce(s[1..], x);
      if s[0] == x {
        assert x !in s[1..] by {
          forall k | 0 <= k < |s[1..]| ensures s[1..][k] != x {
            assert s[1..][k] == s[k + 1];
          }
        }
      }
    }
  }

  /** Taking part of a sequence without repetitions (any sub-multiset, in any
      order) gives a sequence without repetitions. */
  lemma DistinctSub<T>(r: seq<T>, s: seq<T>)
    requires Distinct(s) && multiset(r) <= multiset(s)
    ensures Distinct(r)
  {
    forall i, j | 0 <= i < j < |r| ensures r[i] != r[j] {
      if r[i] == r[j] {
        var x := r[i];
        assert r == r[..j] + r[j..];
        assert x in r[..j] && x in r[j..];
        assert multiset(r)[x] == multiset(r[..j])[x] + multiset(r[j..])[x];
        DistinctOnce(s, x);
        assert false;
      }
    }
  }
}
