/** The orderings of an unordered set (crates/radlr-core/grammar/build_grammar.rs:486-501). */
module Permutations {
  import opened Sequences

  function Without<T>(s: seq<T>, i: nat): (r: seq<T>)
    requires i < |s|
    ensures |r| == |s| - 1
  {
    s[..i] + s[i + 1..]
  }

  function PrefixEach<T>(x: T, ps: seq<seq<T>>): (r: seq<seq<T>>)
    ensures |r| == |ps| && forall i :: 0 <= i < |ps| ==> r[i] == [x] + ps[i]
  {
    seq(|ps|, i requires 0 <= i < |ps| => [x] + ps[i])
  }

  /** The orderings of `s`: every candidate in turn, followed by the orderings of the rest. */
  function Permute<T>(s: seq<T>): seq<seq<T>>
    decreases |s|, |s| + 1
  {
    if |s| > 1 then PermuteFirst(s, |s|) else [s]
  }

  /** The orderings of `s` that begin with one of its first `n` elements. */
  function PermuteFirst<T>(s: seq<T>, n: nat): seq<seq<T>>
    requires n <= |s|
    decreases |s|, n
  {
    if n == 0 then []
    else PermuteFirst(s, n - 1) + PrefixEach(s[n - 1], Permute(Without(s, n - 1)))
  }

  lemma {:induction false} WithoutElements<T>(s: seq<T>, i: nat)
    requires i < |s|
    ensures multiset(s) == multiset(Without(s, i)) + multiset{s[i]}
  {
    assert s == s[..i] + [s[i]] + s[i + 1..];
  }

  lemma {:induction false} ConsElements<T>(x: T, s: seq<T>)
    ensures multiset([x] + s) == multiset(s) + multiset{x}
  {
  }

  /** The candidates before `n`, each followed by an ordering of the rest. */
  ghost predicate StartsEarly<T>(s: seq<T>, n: nat, o: seq<T>) {
    exists i :: 0 <= i < n <= |s| && o != [] && o[0] == s[i] && multiset(o[1..]) == multiset(Without(s, i))
  }

  lemma {:induction false} FromPermute<T>(s: seq<T>, o: seq<T>)
    requires o in Permute(s)
    ensures multiset(o) == multiset(s)
    decreases |s|, |s| + 1
  {
    if |s| > 1 {
      FromPermuteFirst(s, |s|, o);
      var i :| 0 <= i < |s| && o != [] && o[0] == s[i] && multiset(o[1..]) == multiset(Without(s, i));
      WithoutElements(s, i);
      SplitFirst(o);
      ConsElements(o[0], o[1..]);
    }
  }

  lemma {:induction false} FromPermuteFirst<T>(s: seq<T>, n: nat, o: seq<T>)
    requires n <= |s| && o in PermuteFirst(s, n)
    ensures StartsEarly(s, n, o)
    decreases |s|, n
  {
    if n > 0 {
      if o in PermuteFirst(s, n - 1) {
        FromPermuteFirst(s, n - 1, o);
      } else {
        var rest := Permute(Without(s, n - 1));
        var i :| 0 <= i < |rest| && PrefixEach(s[n - 1], rest)[i] == o;
        FromPermute(Without(s, n - 1), rest[i]);
        assert o[1..] == rest[i];
      }
    }
  }

  lemma {:induction false} InPermute<T>(s: seq<T>, o: seq<T>)
    requires multiset(o) == multiset(s)
    ensures o in Permute(s)
    decreases |s|, |s| + 1
  {
    SameLength(o, s);
    if |s| > 1 {
      assert o[0] in multiset(o);
      var i :| 0 <= i < |s| && s[i] == o[0];
      WithoutElements(s, i);
      SplitFirst(o);
      ConsElements(o[0], o[1..]);
      assert (multiset(o[1..]) + multiset{o[0]}) - multiset{o[0]} == multiset(o[1..]);
      assert (multiset(Without(s, i)) + multiset{o[0]}) - multiset{o[0]} == multiset(Without(s, i));
      InPermuteFirst(s, |s|, o, i);
    } else if |s| == 1 {
      assert o[0] in multiset(o);
      assert o == s;
    }
  }

  lemma {:induction false} SameLength<T>(a: seq<T>, b: seq<T>)
    requires multiset(a) == multiset(b)
    ensures |a| == |b|
  {
    assert |multiset(a)| == |a| && |multiset(b)| == |b|;
  }

  lemma {:induction false} InPermuteFirst<T>(s: seq<T>, n: nat, o: seq<T>, i: nat)
    requires i < n <= |s| && o != [] && o[0] == s[i] && multiset(o[1..]) == multiset(Without(s, i))
    ensures o in PermuteFirst(s, n)
    decreases |s|, n
  {
    if i < n - 1 {
      InPermuteFirst(s, n - 1, o, i);
    } else {
      var rest := Permute(Without(s, i));
      InPermute(Without(s, i), o[1..]);
      var k :| 0 <= k < |rest| && rest[k] == o[1..];
      SplitFirst(o);
      assert PrefixEach(s[i], rest)[k] == o;
    }
  }

  /** The orderings generated are exactly the orderings of `s`. */
  lemma {:induction false} PermuteComplete<T>(s: seq<T>, o: seq<T>)
    ensures o in Permute(s) <==> multiset(o) == multiset(s)
  {
    if o in Permute(s) {
      FromPermute(s, o);
    }
    if multiset(o) == multiset(s) {
      InPermute(s, o);
    }
  }

  ghost predicate Distinct<T>(s: seq<T>) {
    forall i, j :: 0 <= i < j < |s| ==> s[i] != s[j]
  }

  lemma {:induction false} DistinctConcat<T>(a: seq<T>, b: seq<T>)
    requires Distinct(a) && Distinct(b)
    requires forall x :: x in a ==> x !in b
    ensures Distinct(a + b)
  {
    forall i, j | 0 <= i < j < |a + b|
      ensures (a + b)[i] != (a + b)[j]
    {
      if i < |a| <= j {
        assert a[i] in a && b[j - |a|] in b;
      }
    }
  }

  /** When the elements are distinct, every ordering is generated once. */
  lemma {:induction false} PermuteOnce<T>(s: seq<T>)
    requires Distinct(s)
    ensures Distinct(Permute(s))
    decreases |s|, |s| + 1
  {
    if |s| > 1 {
      PermuteFirstOnce(s, |s|);
    }
  }

  lemma {:induction false} PermuteFirstOnce<T>(s: seq<T>, n: nat)
    requires Distinct(s) && n <= |s|
    ensures Distinct(PermuteFirst(s, n))
    decreases |s|, n
  {
    if n > 0 {
      var earlier, rest := PermuteFirst(s, n - 1), Permute(Without(s, n - 1));
      var later := PrefixEach(s[n - 1], rest);
      PermuteFirstOnce(s, n - 1);
      PermuteOnce(Without(s, n - 1));
      forall i, j | 0 <= i < j < |later|
        ensures later[i] != later[j]
      {
        assert later[i][1..] == rest[i] && later[j][1..] == rest[j];
      }
      forall o | o in earlier
        ensures o !in later
      {
        FromPermuteFirst(s, n - 1, o);
        forall k | 0 <= k < |later|
          ensures later[k] != o
        {
          assert later[k][0] == s[n - 1];
        }
      }
      DistinctConcat(earlier, later);
    }
  }

  function Indices(n: nat): (r: seq<nat>)
    ensures |r| == n && forall i :: 0 <= i < n ==> r[i] == i
  {
    seq(n, i => i)
  }

  /** An ordering of `0..n` picks valid positions only. */
  lemma {:induction false} OrderingInRange(n: nat, o: seq<nat>)
    requires multiset(o) == multiset(Indices(n))
    ensures |o| == n && forall i :: 0 <= i < n ==> o[i] < n
  {
    SameLength(o, Indices(n));
    forall i | 0 <= i < n
      ensures o[i] < n
    {
      assert o[i] in multiset(o);
      assert o[i] in Indices(n);
    }
  }
}
