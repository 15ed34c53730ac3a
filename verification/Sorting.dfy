/** A stable sort, as the library's sorting functions are taken to be: by insertion after all that come no later. */
module Sorting {
  type Order<!T> = (T, T) -> bool

  function Insert<T>(s: seq<T>, x: T, le: Order<T>): (r: seq<T>)
    ensures |r| == |s| + 1
  {
    if s == [] || le(s[|s| - 1], x) then s + [x] else Insert(s[..|s| - 1], x, le) + [s[|s| - 1]]
  }

  function Sort<T>(s: seq<T>, le: Order<T>): (r: seq<T>)
    ensures |r| == |s|
  {
    if s == [] then [] else Insert(Sort(s[..|s| - 1], le), s[|s| - 1], le)
  }

  lemma {:induction false} InsertKeeps<T>(s: seq<T>, x: T, le: Order<T>)
    ensures multiset(Insert(s, x, le)) == multiset(s) + multiset{x}
  {
    if !(s == [] || le(s[|s| - 1], x)) {
      InsertKeeps(s[..|s| - 1], x, le);
      assert s == s[..|s| - 1] + [s[|s| - 1]];
    }
  }

  lemma {:induction false} SortKeeps<T>(s: seq<T>, le: Order<T>)
    ensures multiset(Sort(s, le)) == multiset(s)
  {
    if s != [] {
      SortKeeps(s[..|s| - 1], le);
      InsertKeeps(Sort(s[..|s| - 1], le), s[|s| - 1], le);
      assert s == s[..|s| - 1] + [s[|s| - 1]];
    }
  }

  predicate Ordered<T>(s: seq<T>, le: Order<T>) {
    forall i, j :: 0 <= i < j < |s| ==> le(s[i], s[j])
  }

  ghost predicate TotalOrder<T(!new)>(le: Order<T>) {
    && (forall a, b :: le(a, b) || le(b, a))
    && forall a, b, c :: le(a, b) && le(b, c) ==> le(a, c)
  }

  lemma {:induction false} InsertOrdered<T(!new)>(s: seq<T>, x: T, le: Order<T>)
    requires TotalOrder(le) && Ordered(s, le)
    ensures Ordered(Insert(s, x, le), le)
  {
    if !(s == [] || le(s[|s| - 1], x)) {
      var front, last := s[..|s| - 1], s[|s| - 1];
      InsertOrdered(front, x, le);
      InsertKeeps(front, x, le);
      var less := Insert(front, x, le);
      forall k | 0 <= k < |less| ensures le(less[k], last) {
        assert less[k] in multiset(less);
      }
    }
  }

  lemma {:induction false} SortOrders<T(!new)>(s: seq<T>, le: Order<T>)
    requires TotalOrder(le)
    ensures Ordered(Sort(s, le), le)
  {
    if s != [] {
      SortOrders(s[..|s| - 1], le);
      InsertOrdered(Sort(s[..|s| - 1], le), s[|s| - 1], le);
    }
  }

  /** Any two elements are related, in either order. */
  predicate Pairwise<T>(s: seq<T>, related: Order<T>) {
    forall i, j :: 0 <= i < j < |s| ==> related(s[i], s[j]) && related(s[j], s[i])
  }

  lemma {:induction false} InsertPairwise<T>(s: seq<T>, x: T, le: Order<T>, related: Order<T>)
    requires Pairwise(s, related) && forall k :: 0 <= k < |s| ==> related(s[k], x) && related(x, s[k])
    ensures Pairwise(Insert(s, x, le), related)
  {
    if !(s == [] || le(s[|s| - 1], x)) {
      var front, last := s[..|s| - 1], s[|s| - 1];
      InsertPairwise(front, x, le, related);
      InsertKeeps(front, x, le);
      var less := Insert(front, x, le);
      forall k | 0 <= k < |less| ensures related(less[k], last) && related(last, less[k]) {
        assert less[k] in multiset(less);
      }
    }
  }

  lemma {:induction false} SortPairwise<T>(s: seq<T>, le: Order<T>, related: Order<T>)
    requires Pairwise(s, related)
    ensures Pairwise(Sort(s, le), related)
  {
    if s != [] {
      var front, last := s[..|s| - 1], s[|s| - 1];
      SortPairwise(front, le, related);
      SortKeeps(front, le);
      forall k | 0 <= k < |front| ensures related(Sort(front, le)[k], last) && related(last, Sort(front, le)[k]) {
        assert Sort(front, le)[k] in multiset(front);
      }
      InsertPairwise(Sort(front, le), last, le, related);
    }
  }

  lemma {:induction false} OrderedStays<T>(s: seq<T>, le: Order<T>)
    requires Ordered(s, le)
    ensures Sort(s, le) == s
  {
    if s != [] {
      OrderedStays(s[..|s| - 1], le);
      assert s == s[..|s| - 1] + [s[|s| - 1]];
    }
  }
}
