/** Order-preserving filters over sequences, as `Array.prototype.filter` and
    the push-if-accepted loops of the catalogue compute them. Both are defined
    by recursion on the LAST element, so that a loop which pushes onto an array
    keeps `acc == Filter(s[..i], p)` as its invariant. */
module Seqs {
  import opened Wrappers

  /** The elements of `s` that satisfy `p`, in their original order. */
  function Filter<T(!new)>(s: seq<T>, p: T -> bool): (r: seq<T>)
    ensures |r| <= |s|
    ensures forall x :: x in r <==> x in s && p(x)
  {
    if s == [] then []
    else
      assert s == s[..|s| - 1] + [s[|s| - 1]];
      Filter(s[..|s| - 1], p) + (if p(s[|s| - 1]) then [s[|s| - 1]] else [])
  }

  /** The values `f` produces on the elements of `s` where it produces one, in order. */
  function Collect<A(!new), B(!new)>(s: seq<A>, f: A -> Option<B>): (r: seq<B>)
    ensures |r| <= |s|
    ensures forall y :: y in r ==> exists x :: x in s && f(x) == Some(y)
  {
    if s == [] then []
    else
      assert s == s[..|s| - 1] + [s[|s| - 1]];
      Collect(s[..|s| - 1], f) + (match f(s[|s| - 1]) case Some(y) => [y] case None => [])
  }

  lemma {:induction false} FilterAppend<T(!new)>(a: seq<T>, b: seq<T>, p: T -> bool)
    ensures Filter(a + b, p) == Filter(a, p) + Filter(b, p)
    decreases |b|
  {
    if b == [] {
      assert a + b == a;
    } else {
      var b' := b[..|b| - 1];
      assert (a + b)[..|a + b| - 1] == a + b';
      FilterAppend(a, b', p);
    }
  }

  /** One more element at the end: the step a push-if-accepted loop takes. */
  lemma FilterSnoc<T(!new)>(s: seq<T>, x: T, p: T -> bool)
    ensures Filter(s + [x], p) == Filter(s, p) + (if p(x) then [x] else [])
  {
    assert (s + [x])[..|s|] == s;
  }

  /** One more element at the end of a collected prefix. */
  lemma CollectPrefixStep<A(!new), B(!new)>(s: seq<A>, i: nat, f: A -> Option<B>)
    requires i < |s|
    ensures Collect(s[..i + 1], f) == Collect(s[..i], f) + (match f(s[i]) case Some(y) => [y] case None => [])
  {
    assert s[..i + 1][..i] == s[..i];
  }

  /** A filter that every element passes changes nothing. */
  lemma {:induction false} FilterAllPass<T(!new)>(s: seq<T>, p: T -> bool)
    requires forall x :: x in s ==> p(x)
    ensures Filter(s, p) == s
  {
    if s != [] {
      var s', x := s[..|s| - 1], s[|s| - 1];
      assert s == s' + [x];
      forall y | y in s' ensures p(y) {
        assert y in s;
      }
      FilterAllPass(s', p);
      assert p(x);
    }
  }

  /** Splitting by a predicate and its negation and concatenating the two parts
      loses and duplicates nothing. */
  lemma {:induction false} PartitionIsPermutation<T(!new)>(s: seq<T>, p: T -> bool, q: T -> bool)
    requires forall x :: q(x) == !p(x)
    ensures multiset(Filter(s, p) + Filter(s, q)) == multiset(s)
  {
    if s != [] {
      var s' := s[..|s| - 1];
      PartitionIsPermutation(s', p, q);
      assert s == s' + [s[|s| - 1]];
    }
  }

  lemma {:induction false} CollectAppend<A(!new), B(!new)>(a: seq<A>, b: seq<A>, f: A -> Option<B>)
    ensures Collect(a + b, f) == Collect(a, f) + Collect(b, f)
    decreases |b|
  {
    if b == [] {
      assert a + b == a;
    } else {
      var b' := b[..|b| - 1];
      assert (a + b)[..|a + b| - 1] == a + b';
      CollectAppend(a, b', f);
    }
  }

  /** Nothing `f` produces a value for is dropped. */
  lemma {:induction false} CollectComplete<A(!new), B(!new)>(s: seq<A>, f: A -> Option<B>)
    ensures forall x :: x in s && f(x).Some? ==> f(x).value in Collect(s, f)
  {
    if s != [] {
      var s', last := s[..|s| - 1], s[|s| - 1];
      CollectComplete(s', f);
      assert s == s' + [last];
      assert Collect(s, f) == Collect(s', f) + (match f(last) case Some(y) => [y] case None => []);
      forall x | x in s && f(x).Some? ensures f(x).value in Collect(s, f) {
        if x != last {
          assert x in s';
        }
      }
    }
  }

  /** Reordering the input reorders the output and nothing else. */
  lemma {:induction false} CollectPermutation<A(!new), B(!new)>(a: seq<A>, b: seq<A>, f: A -> Option<B>)
    requires multiset(a) == multiset(b)
    ensures multiset(Collect(a, f)) == multiset(Collect(b, f))
    decreases |a|
  {
    if a != [] {
      var a' := a[..|a| - 1];
      var x := a[|a| - 1];
      assert a == a' + [x];
      assert x in multiset(b);
      var k :| 0 <= k < |b| && b[k] == x;
      var b1, b2 := b[..k], b[k + 1..];
      assert b == b1 + [x] + b2;
      assert multiset(a') + multiset{x} == multiset(b1 + b2) + multiset{x} by {
        assert multiset(b) == multiset(b1) + multiset{x} + multiset(b2);
      }
      MultisetCancel(multiset(a'), multiset(b1 + b2), x);
      CollectPermutation(a', b1 + b2, f);
      CollectAppend(b1, b2, f);
      CollectAppend(b1 + [x], b2, f);
      CollectAppend(b1, [x], f);
      CollectAppend(a', [x], f);
    }
  }

  /** Two sequences that are permutations of each other have the same elements. */
  lemma SameElements<T>(a: seq<T>, b: seq<T>)
    requires multiset(a) == multiset(b)
    ensures forall x :: x in a <==> x in b
  {
    forall x ensures x in a <==> x in b {
      assert x in a <==> x in multiset(a);
      assert x in b <==> x in multiset(b);
    }
  }

  lemma MultisetCancel<T>(m: multiset<T>, n: multiset<T>, x: T)
    requires m + multiset{x} == n + multiset{x}
    ensures m == n
  {
    assert forall y :: m[y] == (m + multiset{x})[y] - multiset{x}[y];
    assert forall y :: n[y] == (n + multiset{x})[y] - multiset{x}[y];
  }

  /** When `f` produces a value for every element, nothing is dropped and the
      i-th output comes from the i-th input. */
  lemma {:induction false} CollectTotal<A(!new), B(!new)>(s: seq<A>, f: A -> Option<B>)
    requires forall x :: x in s ==> f(x).Some?
    ensures |Collect(s, f)| == |s|
    ensures forall i :: 0 <= i < |s| ==> Collect(s, f)[i] == f(s[i]).value
  {
    if s != [] {
      var s', x := s[..|s| - 1], s[|s| - 1];
      forall y | y in s' ensures f(y).Some? {
        var j :| 0 <= j < |s'| && s'[j] == y;
        assert s[j] == y;
      }
      CollectTotal(s', f);
      var r := Collect(s, f);
      assert r == Collect(s', f) + [f(x).value];
      forall i | 0 <= i < |s| ensures r[i] == f(s[i]).value {
        if i < |s'| {
          assert s[i] == s'[i];
        }
      }
    }
  }
}
