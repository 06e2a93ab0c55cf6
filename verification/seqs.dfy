/** Facts about sequences used as ordered key lists (object keys, document ids). */
module Sequences {

  /** No element occurs twice. */
  predicate Distinct<T(==)>(s: seq<T>)
  {
    forall i, j | 0 <= i < j < |s| :: s[i] != s[j]
  }

  /** `s` with every occurrence of `x` removed, the others kept in order. */
  function Without<T(==)>(s: seq<T>, x: T): (r: seq<T>)
    ensures forall y | y in r :: y in s && y != x
    ensures forall y | y in s && y != x :: y in r
    ensures x !in s ==> r == s
  {
    if s == [] then []
    else
      var r' := Without(s[..|s| - 1], x);
      assert s == s[..|s| - 1] + [s[|s| - 1]];
      if s[|s| - 1] == x then r' else r' + [s[|s| - 1]]
  }

  lemma {:induction false} WithoutDistinct<T>(s: seq<T>, x: T)
    requires Distinct(s)
    ensures Distinct(Without(s, x))
    ensures x in s ==> |Without(s, x)| == |s| - 1
  {
    if s != [] {
      var p, last := s[..|s| - 1], s[|s| - 1];
      assert Distinct(p);
      WithoutDistinct(p, x);
      assert s == p + [last];
      if last != x {
        var w := Without(p, x);
        assert last !in p by {
          forall i | 0 <= i < |p| ensures p[i] != last {
            assert s[i] == p[i];
          }
        }
        assert Without(s, x) == w + [last];
        assert last !in w;
      }
    }
  }

  /** Removal distributes over concatenation. */
  lemma {:induction false} WithoutAppend<T>(a: seq<T>, b: seq<T>, x: T)
    ensures Without(a + b, x) == Without(a, x) + Without(b, x)
  {
    if b == [] {
      assert a + b == a;
    } else {
      var p := b[..|b| - 1];
      assert (a + b)[..|a + b| - 1] == a + p;
      WithoutAppend(a, p, x);
    }
  }

  /** Position of an element that occurs in the sequence. */
  function IndexOf<T(==)>(s: seq<T>, x: T): (i: nat)
    requires x in s
    ensures i < |s| && s[i] == x
  {
    if s[0] == x then 0 else 1 + IndexOf(s[1..], x)
  }

  /** In a duplicate-free sequence the position of an element is unique. */
  lemma IndexOfUnique<T>(s: seq<T>, i: nat)
    requires Distinct(s) && i < |s|
    ensures IndexOf(s, s[i]) == i
  {
  }

  /** Appending an element does not move the ones already there. */
  lemma {:induction false} IndexOfAppend<T>(s: seq<T>, y: T, x: T)
    requires x in s
    ensures IndexOf(s + [y], x) == IndexOf(s, x)
  {
    if s[0] != x {
      assert (s + [y])[1..] == s[1..] + [y];
      IndexOfAppend(s[1..], y, x);
    }
  }

  /** Removing an element of a duplicate-free sequence cuts it out: the elements before and after keep their order. */
  lemma {:induction false} WithoutInOrder<T>(s: seq<T>, x: T)
    requires Distinct(s) && x in s
    ensures Without(s, x) == s[..IndexOf(s, x)] + s[IndexOf(s, x) + 1..]
  {
    var i := IndexOf(s, x);
    var before, after := s[..i], s[i + 1..];
    assert s == before + [x] + after;
    assert x !in before by {
      forall j | 0 <= j < i ensures before[j] != x {
        assert s[j] != s[i];
      }
    }
    assert x !in after by {
      forall j | 0 <= j < |after| ensures after[j] != x {
        assert s[i + 1 + j] != s[i];
      }
    }
    WithoutAppend(before + [x], after, x);
    WithoutAppend(before, [x], x);
    assert Without([x], x) == [] by {
      assert [x][..0] == [];
    }
  }

  /** A duplicate-free sequence has as many elements as its set of elements. */
  lemma {:induction false} DistinctCardinality<T>(s: seq<T>)
    requires Distinct(s)
    ensures |set x | x in s| == |s|
  {
    if s != [] {
      var p := s[..|s| - 1];
      assert Distinct(p);
      DistinctCardinality(p);
      assert s == p + [s[|s| - 1]];
      assert (set x | x in s) == (set x | x in p) + {s[|s| - 1]};
    }
  }
}
