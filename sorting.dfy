/**
 * A stable insertion sort by a total preorder, standing for the library
 * `List.sort` and `Stream.sorted` calls of the modelled code.
 */
module Sorting {
  ghost predicate Total<T(!new)>(le: (T, T) -> bool)
  {
    forall a, b :: le(a, b) || le(b, a)
  }

  ghost predicate Transitive<T(!new)>(le: (T, T) -> bool)
  {
    forall a, b, c :: le(a, b) && le(b, c) ==> le(a, c)
  }

  predicate Sorted<T>(s: seq<T>, le: (T, T) -> bool)
  {
    forall i, j :: 0 <= i < j < |s| ==> le(s[i], s[j])
  }

  /**
   * `le` is total and transitive among the elements of `s`: all a sort
   * needs, even of a comparator that is not a preorder on every value.
   */
  ghost predicate PreorderOn<T>(s: seq<T>, le: (T, T) -> bool)
  {
    && (forall a, b :: a in s && b in s ==> le(a, b) || le(b, a))
    && (forall a, b, c :: a in s && b in s && c in s && le(a, b) && le(b, c) ==> le(a, c))
  }

  lemma PreorderEverywhere<T(!new)>(s: seq<T>, le: (T, T) -> bool)
    requires Total(le) && Transitive(le)
    ensures PreorderOn(s, le)
  {
  }

  /** Inserts `x` after every leading element that `x` does not sort before. */
  function Insert<T>(x: T, s: seq<T>, le: (T, T) -> bool): (r: seq<T>)
    ensures multiset(r) == multiset(s) + multiset{x}
  {
    if |s| == 0 then [x]
    else if !le(s[0], x) then [x] + s
    else
      assert s == [s[0]] + s[1..];
      [s[0]] + Insert(x, s[1..], le)
  }

  lemma {:induction false} InsertSorted<T>(x: T, s: seq<T>, le: (T, T) -> bool)
    requires PreorderOn([x] + s, le) && Sorted(s, le)
    ensures Sorted(Insert(x, s, le), le)
  {
    if |s| == 0 {
    } else if !le(s[0], x) {
      assert x in [x] + s && s[0] in [x] + s;
      assert le(x, s[0]);
      forall k | 0 < k < |s| ensures le(x, s[k]) {
        assert s[k] in [x] + s;
      }
    } else {
      var rest := Insert(x, s[1..], le);
      assert PreorderOn([x] + s[1..], le) by {
        forall a | a in [x] + s[1..] ensures a in [x] + s {
          if a != x {
            var k :| 0 <= k < |s[1..]| && s[1..][k] == a;
            assert s[k + 1] == a;
          }
        }
      }
      InsertSorted(x, s[1..], le);
      forall j | 0 <= j < |rest| ensures le(s[0], rest[j]) {
        var z := rest[j];
        assert z in multiset(rest);
        if z != x {
          assert z in multiset(s[1..]);
          var k :| 0 <= k < |s[1..]| && s[1..][k] == z;
          assert s[1 + k] == z;
        }
      }
    }
  }

  /** Sorts `s` by `le`, keeping equivalent elements in their original order. */
  function Sort<T>(s: seq<T>, le: (T, T) -> bool): (r: seq<T>)
    ensures multiset(r) == multiset(s)
  {
    if |s| == 0 then [] else
      assert s == s[..|s| - 1] + [s[|s| - 1]];
      Insert(s[|s| - 1], Sort(s[..|s| - 1], le), le)
  }

  /** Where `le` is a preorder among the elements, `Sort` orders them by it. */
  lemma {:induction false} SortSorted<T>(s: seq<T>, le: (T, T) -> bool)
    requires PreorderOn(s, le)
    ensures Sorted(Sort(s, le), le)
  {
    if |s| > 0 {
      var init, last := s[..|s| - 1], s[|s| - 1];
      assert PreorderOn(init, le) by {
        forall a | a in init ensures a in s {
          var k :| 0 <= k < |init| && init[k] == a;
          assert s[k] == a;
        }
      }
      SortSorted(init, le);
      var sorted := Sort(init, le);
      assert PreorderOn([last] + sorted, le) by {
        forall a | a in [last] + sorted ensures a in s {
          if a != last {
            assert a in multiset(sorted);
            assert a in multiset(init);
            var k :| 0 <= k < |init| && init[k] == a;
            assert s[k] == a;
          }
        }
      }
      InsertSorted(last, sorted, le);
    }
  }

  lemma SameElements<T>(a: seq<T>, b: seq<T>)
    requires multiset(a) == multiset(b)
    ensures forall x :: x in a <==> x in b
  {
    forall x ensures x in a <==> x in b {
      assert x in a <==> x in multiset(a);
      assert x in b <==> x in multiset(b);
    }
  }

  predicate NoDuplicates<T(==)>(s: seq<T>)
  {
    forall i, j :: 0 <= i < j < |s| ==> s[i] != s[j]
  }

  lemma {:induction false} CountAtMostOne<T>(s: seq<T>, x: T)
    requires NoDuplicates(s)
    ensures multiset(s)[x] <= 1
  {
    if |s| > 0 {
      assert s == [s[0]] + s[1..];
      CountAtMostOne(s[1..], x);
      if s[0] == x {
        assert x !in s[1..];
      }
    }
  }

  lemma CountAtLeastTwo<T>(s: seq<T>, i: nat, j: nat)
    requires i < j < |s| && s[i] == s[j]
    ensures multiset(s)[s[i]] >= 2
  {
    assert s == s[..j] + [s[j]] + s[j + 1..];
    assert s[i] in s[..j];
  }

  /** A permutation of a list without duplicates has none either. */
  lemma NoDuplicatesPermutation<T>(a: seq<T>, b: seq<T>)
    requires multiset(a) == multiset(b) && NoDuplicates(b)
    ensures NoDuplicates(a)
  {
    forall i, j | 0 <= i < j < |a| ensures a[i] != a[j] {
      if a[i] == a[j] {
        CountAtLeastTwo(a, i, j);
        CountAtMostOne(b, a[i]);
        assert false;
      }
    }
  }
}
