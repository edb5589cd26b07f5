/** Sequences with repeated or reordered elements: distinctness, flattening and permutations. */
module Sequences {
  predicate Distinct<T(==)>(s: seq<T>) {
    forall i, j :: 0 <= i < j < |s| ==> s[i] != s[j]
  }

  /** Distinctness is a property of the multiset of elements. */
  lemma {:induction false} DistinctCounts<T>(s: seq<T>)
    ensures Distinct(s) <==> forall x :: multiset(s)[x] <= 1
  {
    if s != [] {
      var front, last := s[..|s| - 1], s[|s| - 1];
      DistinctCounts(front);
      assert s == front + [last];
      if last in front {
        assert multiset(s)[last] >= 2;
      } else if Distinct(front) {
        forall x ensures multiset(s)[x] <= 1 {
          assert multiset(front)[x] <= 1;
        }
      } else {
        var x :| multiset(front)[x] > 1;
        assert multiset(s)[x] > 1;
      }
    }
  }

  lemma DistinctPermuted<T>(a: seq<T>, b: seq<T>)
    requires multiset(a) == multiset(b)
    ensures Distinct(a) <==> Distinct(b)
  {
    DistinctCounts(a);
    DistinctCounts(b);
  }

  lemma DistinctExtended<T>(s: seq<T>, x: T, rest: seq<T>)
    ensures Distinct(s + ([x] + rest)) <==> Distinct((s + [x]) + rest)
    ensures Distinct(s + ([x] + rest)) ==> x !in s
    ensures x in s ==> !Distinct(s + ([x] + rest))
  {
    assert s + ([x] + rest) == (s + [x]) + rest;
    if x in s {
      var i :| 0 <= i < |s| && s[i] == x;
      assert (s + ([x] + rest))[i] == (s + ([x] + rest))[|s|];
    }
  }

  lemma DistinctParts<T>(a: seq<T>, b: seq<T>)
    requires Distinct(a + b)
    ensures Distinct(a) && Distinct(b)
  {
    forall i, j | 0 <= i < j < |a| ensures a[i] != a[j] {
      assert (a + b)[i] == a[i] && (a + b)[j] == a[j];
    }
    forall i, j | 0 <= i < j < |b| ensures b[i] != b[j] {
      assert (a + b)[|a| + i] == b[i] && (a + b)[|a| + j] == b[j];
    }
  }

  /** Each element replaced by a list, the lists joined in order. */
  function Flat<T, U>(s: seq<T>, f: T -> seq<U>): seq<U> {
    if s == [] then [] else f(s[0]) + Flat(s[1..], f)
  }

  lemma {:induction false} FlatMember<T, U>(s: seq<T>, f: T -> seq<U>, y: U)
    ensures y in Flat(s, f) <==> exists i :: 0 <= i < |s| && y in f(s[i])
  {
    if s != [] {
      FlatMember(s[1..], f, y);
      if i :| 0 <= i < |s| && y in f(s[i]) {
        if i > 0 { assert s[1..][i - 1] == s[i]; }
      }
      if y in Flat(s[1..], f) {
        var i :| 0 <= i < |s[1..]| && y in f(s[1..][i]);
        assert s[i + 1] == s[1..][i];
      }
    }
  }

  lemma {:induction false} FlatAppend<T, U>(a: seq<T>, b: seq<T>, f: T -> seq<U>)
    ensures Flat(a + b, f) == Flat(a, f) + Flat(b, f)
  {
    if a == [] {
      assert a + b == b;
    } else {
      FlatAppend(a[1..], b, f);
      assert (a + b)[1..] == a[1..] + b;
      Assoc(f(a[0]), Flat(a[1..], f), Flat(b, f));
    }
  }

  lemma Assoc<U>(a: seq<U>, b: seq<U>, c: seq<U>)
    ensures (a + b) + c == a + (b + c)
  {
  }

  function Without<T>(s: seq<T>, k: nat): seq<T>
    requires k < |s|
  {
    s[..k] + s[k + 1..]
  }

  lemma MultisetWithout<T>(s: seq<T>, k: nat)
    requires k < |s|
    ensures multiset(s) == multiset{s[k]} + multiset(Without(s, k))
  {
    assert s == s[..k] + ([s[k]] + s[k + 1..]);
  }

  lemma FlatWithout<T, U>(s: seq<T>, k: nat, f: T -> seq<U>)
    requires k < |s|
    ensures multiset(Flat(s, f)) == multiset(f(s[k])) + multiset(Flat(Without(s, k), f))
  {
    FlatAppend(s[..k], s[k..], f);
    FlatAppend(s[..k], s[k + 1..], f);
    assert s == s[..k] + s[k..] && s[k..][0] == s[k] && s[k..][1..] == s[k + 1..];
  }

  /** Flattening a permutation of a list gives a permutation of the result. */
  lemma {:induction false} FlatPermuted<T, U>(a: seq<T>, b: seq<T>, f: T -> seq<U>)
    requires multiset(a) == multiset(b)
    ensures multiset(Flat(a, f)) == multiset(Flat(b, f))
  {
    if a == [] {
      PermutedMembers(a, b);
    } else {
      assert a[0] in multiset(b);
      var k :| 0 <= k < |b| && b[k] == a[0];
      MultisetWithout(a, 0);
      MultisetWithout(b, k);
      assert Without(a, 0) == a[1..];
      Cancel(multiset(a), multiset(a[1..]), multiset(Without(b, k)), a[0]);
      FlatPermuted(a[1..], Without(b, k), f);
      FlatWithout(b, k, f);
    }
  }

  lemma Cancel<T>(all: multiset<T>, a: multiset<T>, b: multiset<T>, x: T)
    requires all == multiset{x} + a && all == multiset{x} + b
    ensures a == b
  {
    assert a == all - multiset{x} == b;
  }

  lemma {:induction false} FlatPointwise<T, U>(a: seq<T>, f: T -> seq<U>, b: seq<T>, g: T -> seq<U>)
    requires |a| == |b|
    requires forall i :: 0 <= i < |a| ==> multiset(f(a[i])) == multiset(g(b[i]))
    ensures multiset(Flat(a, f)) == multiset(Flat(b, g))
  {
    if a != [] {
      forall i | 0 <= i < |a[1..]| ensures multiset(f(a[1..][i])) == multiset(g(b[1..][i])) {
        assert a[1..][i] == a[i + 1] && b[1..][i] == b[i + 1];
      }
      FlatPointwise(a[1..], f, b[1..], g);
    }
  }

  /** Permuted lists have the same members. */
  lemma PermutedMembers<T>(a: seq<T>, b: seq<T>)
    requires multiset(a) == multiset(b)
    ensures |a| == |b|
    ensures forall x :: x in a <==> x in b
  {
    assert |multiset(a)| == |a| && |multiset(b)| == |b|;
    forall x ensures x in a <==> x in b {
      assert x in a <==> x in multiset(a);
      assert x in b <==> x in multiset(b);
    }
  }

  lemma {:induction false} FlatOfFlat<T, U, V>(s: seq<T>, f: T -> seq<U>, g: U -> seq<V>, h: T -> seq<V>)
    requires forall i :: 0 <= i < |s| ==> h(s[i]) == Flat(f(s[i]), g)
    ensures Flat(Flat(s, f), g) == Flat(s, h)
  {
    if s != [] {
      forall i | 0 <= i < |s[1..]| ensures h(s[1..][i]) == Flat(f(s[1..][i]), g) {
        assert s[1..][i] == s[i + 1];
      }
      FlatOfFlat(s[1..], f, g, h);
      FlatAppend(f(s[0]), Flat(s[1..], f), g);
    }
  }

  /** When every piece has at most one element, the whole has at most one exactly if no two pieces are inhabited. */
  lemma {:induction false} FlatOfSingles<T, U>(s: seq<T>, f: T -> seq<U>)
    requires forall i :: 0 <= i < |s| ==> |f(s[i])| <= 1
    ensures |Flat(s, f)| > 1 <==> exists i, j :: 0 <= i < j < |s| && f(s[i]) != [] && f(s[j]) != []
    ensures Flat(s, f) == [] <==> forall i :: 0 <= i < |s| ==> f(s[i]) == []
  {
    if s != [] {
      var rest := s[1..];
      forall i | 0 <= i < |rest| ensures rest[i] == s[i + 1] {}
      FlatOfSingles(rest, f);
      if i, j :| 0 <= i < j < |s| && f(s[i]) != [] && f(s[j]) != [] {
        assert f(rest[j - 1]) != [];
        if i > 0 { assert f(rest[i - 1]) != []; }
      }
      if |Flat(s, f)| > 1 {
        if |Flat(rest, f)| > 1 {
          var i, j :| 0 <= i < j < |rest| && f(rest[i]) != [] && f(rest[j]) != [];
          assert f(s[i + 1]) != [] && f(s[j + 1]) != [];
        } else {
          var j :| 0 <= j < |rest| && f(rest[j]) != [];
          assert f(s[0]) != [] && f(s[j + 1]) != [];
        }
      }
    }
  }

  lemma FlatOne<T, U>(x: T, f: T -> seq<U>)
    ensures Flat([x], f) == f(x)
  {
    assert [x][1..] == [];
  }

  lemma FlatTwo<T, U>(x: T, y: T, f: T -> seq<U>)
    ensures Flat([x, y], f) == f(x) + f(y)
  {
    assert [x, y][1..] == [y];
    FlatOne(y, f);
  }
}
