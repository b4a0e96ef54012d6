/** The stable sort the gateway takes from its standard library. */
module Sorting {
  import opened Basics

  ghost predicate IsTotalPreorder<T(!new)>(le: (T, T) -> bool)
  {
    (forall a, b :: le(a, b) || le(b, a))
    && (forall a, b, c :: le(a, b) && le(b, c) ==> le(a, c))
  }

  ghost predicate IsSorted<T>(s: seq<T>, le: (T, T) -> bool)
  {
    forall i, j :: 0 <= i < j < |s| ==> le(s[i], s[j])
  }

  /** Inserts behind every element that is at most `x`, so equal elements keep their order. */
  function Insert<T>(s: seq<T>, x: T, le: (T, T) -> bool): seq<T>
  {
    if s == [] then [x]
    else if le(Last(s), x) then s + [x]
    else Insert(DropLast(s), x, le) + [Last(s)]
  }

  function Sort<T>(s: seq<T>, le: (T, T) -> bool): seq<T>
  {
    if s == [] then [] else Insert(Sort(DropLast(s), le), Last(s), le)
  }

  lemma {:induction false} InsertIsPermutation<T>(s: seq<T>, x: T, le: (T, T) -> bool)
    ensures multiset(Insert(s, x, le)) == multiset(s) + multiset{x}
  {
    if s != [] {
      assert s == DropLast(s) + [Last(s)];
      if !le(Last(s), x) {
        InsertIsPermutation(DropLast(s), x, le);
      }
    }
  }

  lemma {:induction false} SortIsPermutation<T>(s: seq<T>, le: (T, T) -> bool)
    ensures multiset(Sort(s, le)) == multiset(s)
  {
    hide Insert;
    if s != [] {
      var rest, x := DropLast(s), Last(s);
      SortIsPermutation(rest, le);
      InsertIsPermutation(Sort(rest, le), x, le);
      assert s == rest + [x];
      assert multiset(s) == multiset(rest) + multiset{x};
    }
  }

  lemma SortKeepsMembers<T>(s: seq<T>, le: (T, T) -> bool)
    ensures |Sort(s, le)| == |s|
    ensures forall x :: x in Sort(s, le) <==> x in s
  {
    SortIsPermutation(s, le);
    assert |Sort(s, le)| == |multiset(Sort(s, le))| == |s|;
    forall x
      ensures x in Sort(s, le) <==> x in s
    {
      assert x in Sort(s, le) <==> x in multiset(Sort(s, le));
      assert x in s <==> x in multiset(s);
    }
  }

  lemma {:induction false} InsertMembers<T>(s: seq<T>, x: T, le: (T, T) -> bool)
    ensures forall y :: y in Insert(s, x, le) <==> y in s || y == x
  {
    if s != [] && !le(Last(s), x) {
      InsertMembers(DropLast(s), x, le);
      assert s == DropLast(s) + [Last(s)];
    }
  }

  lemma {:induction false} InsertKeepsSorted<T(!new)>(s: seq<T>, x: T, le: (T, T) -> bool)
    requires IsTotalPreorder(le) && IsSorted(s, le)
    ensures IsSorted(Insert(s, x, le), le)
  {
    if s != [] {
      if le(Last(s), x) {
        forall i | 0 <= i < |s|
          ensures le(s[i], x)
        {
          assert i == |s| - 1 || le(s[i], Last(s));
        }
      } else {
        var rest := Insert(DropLast(s), x, le);
        InsertKeepsSorted(DropLast(s), x, le);
        InsertMembers(DropLast(s), x, le);
        assert le(x, Last(s));
        forall i | 0 <= i < |rest|
          ensures le(rest[i], Last(s))
        {
          assert rest[i] in rest;
          if rest[i] != x {
            var k :| 0 <= k < |s| - 1 && s[k] == rest[i];
          }
        }
      }
    }
  }

  lemma {:induction false} SortIsSorted<T(!new)>(s: seq<T>, le: (T, T) -> bool)
    requires IsTotalPreorder(le)
    ensures IsSorted(Sort(s, le), le)
  {
    if s != [] {
      SortIsSorted(DropLast(s), le);
      InsertKeepsSorted(Sort(DropLast(s), le), Last(s), le);
    }
  }

  /** Sorting a list that is already in order changes nothing: the sort is stable. */
  lemma {:induction false} SortOfSorted<T>(s: seq<T>, le: (T, T) -> bool)
    requires IsSorted(s, le)
    ensures Sort(s, le) == s
  {
    if s != [] {
      SortOfSorted(DropLast(s), le);
      if |s| > 1 {
        assert le(s[|s| - 2], s[|s| - 1]);
      }
      assert s == DropLast(s) + [Last(s)];
    }
  }
}
