/** The order `sort.SliceStable` produces for a strict weak `less`: every element goes
    behind all earlier elements it does not precede. */
module StableSort {

  ghost predicate StrictWeak<T(!new)>(less: (T, T) -> bool) {
    && (forall a :: !less(a, a))
    && (forall a, b, c :: less(a, b) && less(b, c) ==> less(a, c))
    && (forall a, b, c :: !less(a, b) && !less(b, c) ==> !less(a, c))
  }

  function Insert<T>(less: (T, T) -> bool, x: T, s: seq<T>): seq<T> {
    if s == [] then [x]
    else if less(x, s[|s| - 1]) then Insert(less, x, s[..|s| - 1]) + [s[|s| - 1]]
    else s + [x]
  }

  function Sort<T>(less: (T, T) -> bool, s: seq<T>): seq<T> {
    if s == [] then [] else Insert(less, s[|s| - 1], Sort(less, s[..|s| - 1]))
  }

  /** `s` is ordered by `less`, and elements `less` does not separate are ordered by `pos`. */
  ghost predicate Ordered<T>(less: (T, T) -> bool, pos: T -> int, s: seq<T>) {
    forall i, j :: 0 <= i < j < |s| ==> Before(less, pos, s[i], s[j])
  }

  ghost predicate Before<T>(less: (T, T) -> bool, pos: T -> int, a: T, b: T) {
    less(a, b) || (!less(b, a) && pos(a) < pos(b))
  }

  /** The elements of `s` that `less` does not separate from `x`, in order. */
  function Ties<T>(less: (T, T) -> bool, x: T, s: seq<T>): seq<T> {
    if s == [] then []
    else
      var y := s[|s| - 1];
      Ties(less, x, s[..|s| - 1]) + (if less(x, y) || less(y, x) then [] else [y])
  }

  lemma {:induction false} InsertMultiset<T>(less: (T, T) -> bool, x: T, s: seq<T>)
    ensures multiset(Insert(less, x, s)) == multiset(s) + multiset{x}
    ensures |Insert(less, x, s)| == |s| + 1
  {
    if s == [] {
    } else if less(x, s[|s| - 1]) {
      InsertMultiset(less, x, s[..|s| - 1]);
      assert s == s[..|s| - 1] + [s[|s| - 1]];
    }
  }

  /** Sorting permutes. */
  lemma {:induction false} SortPermutes<T>(less: (T, T) -> bool, s: seq<T>)
    ensures multiset(Sort(less, s)) == multiset(s)
    ensures |Sort(less, s)| == |s|
  {
    if s == [] {
    } else {
      SortPermutes(less, s[..|s| - 1]);
      InsertMultiset(less, s[|s| - 1], Sort(less, s[..|s| - 1]));
      assert s == s[..|s| - 1] + [s[|s| - 1]];
    }
  }

  lemma InMultiset<T>(a: seq<T>, b: seq<T>, x: T)
    requires multiset(a) == multiset(b)
    ensures x in a <==> x in b
  {
    assert x in a <==> x in multiset(a);
    assert x in b <==> x in multiset(b);
  }

  lemma {:induction false} InsertOrders<T(!new)>(less: (T, T) -> bool, pos: T -> int, x: T, s: seq<T>)
    requires StrictWeak(less) && Ordered(less, pos, s)
    requires forall y :: y in s ==> pos(y) < pos(x)
    ensures Ordered(less, pos, Insert(less, x, s))
  {
    if s == [] {
    } else {
      var last := s[|s| - 1];
      var front := s[..|s| - 1];
      assert forall i :: 0 <= i < |front| ==> Before(less, pos, front[i], last);
      if less(x, last) {
        InsertOrders(less, pos, x, front);
        InsertMultiset(less, x, front);
        var r := Insert(less, x, front);
        forall i | 0 <= i < |r| ensures Before(less, pos, r[i], last) {
          assert r[i] in multiset(r);
          assert r[i] == x || r[i] in front;
        }
      } else {
        forall i | 0 <= i < |s| ensures Before(less, pos, s[i], x) {
          assert s[i] in s;
          if i < |s| - 1 {
            assert Before(less, pos, front[i], last);
          }
        }
      }
    }
  }

  /** Sorting a sequence that lists its elements by increasing `pos` orders it by `less`,
      then by `pos`: the tie-break of a stable sort. */
  lemma {:induction false} SortOrders<T(!new)>(less: (T, T) -> bool, pos: T -> int, s: seq<T>)
    requires StrictWeak(less)
    requires forall i, j :: 0 <= i < j < |s| ==> pos(s[i]) < pos(s[j])
    ensures Ordered(less, pos, Sort(less, s))
  {
    if s == [] {
    } else {
      var front := s[..|s| - 1];
      SortOrders(less, pos, front);
      SortPermutes(less, front);
      forall y | y in Sort(less, front) ensures pos(y) < pos(s[|s| - 1]) {
        InMultiset(Sort(less, front), front, y);
        var i :| 0 <= i < |front| && front[i] == y;
        assert s[i] == y;
      }
      InsertOrders(less, pos, s[|s| - 1], Sort(less, front));
    }
  }

  lemma TiesAppend<T>(less: (T, T) -> bool, x: T, s: seq<T>, y: T)
    ensures Ties(less, x, s + [y]) == Ties(less, x, s) + (if less(x, y) || less(y, x) then [] else [y])
  {
    assert (s + [y])[..|s|] == s;
  }

  lemma {:induction false} InsertKeepsTies<T(!new)>(less: (T, T) -> bool, v: T, x: T, s: seq<T>)
    requires StrictWeak(less)
    ensures Ties(less, v, Insert(less, x, s)) == Ties(less, v, s + [x])
  {
    TiesAppend(less, v, s, x);
    if s == [] {
    } else if less(x, s[|s| - 1]) {
      var last := s[|s| - 1];
      var front := s[..|s| - 1];
      InsertKeepsTies(less, v, x, front);
      TiesAppend(less, v, front, x);
      TiesAppend(less, v, Insert(less, x, front), last);
    }
  }

  /** Stability: elements that tie keep their input order. */
  lemma {:induction false} SortKeepsTies<T(!new)>(less: (T, T) -> bool, v: T, s: seq<T>)
    requires StrictWeak(less)
    ensures Ties(less, v, Sort(less, s)) == Ties(less, v, s)
  {
    if s == [] {
    } else {
      var front := s[..|s| - 1];
      var x := s[|s| - 1];
      SortKeepsTies(less, v, front);
      InsertKeepsTies(less, v, x, Sort(less, front));
      TiesAppend(less, v, Sort(less, front), x);
    }
  }

  lemma {:induction false} SortHasNoDescent<T(!new)>(less: (T, T) -> bool, s: seq<T>)
    requires StrictWeak(less)
    ensures |Sort(less, s)| == |s|
    ensures forall i, j :: 0 <= i < j < |s| ==> !less(Sort(less, s)[j], Sort(less, s)[i])
  {
    SortPermutes(less, s);
    if s == [] {
    } else {
      SortHasNoDescent(less, s[..|s| - 1]);
      SortPermutes(less, s[..|s| - 1]);
      InsertHasNoDescent(less, s[|s| - 1], Sort(less, s[..|s| - 1]));
    }
  }

  lemma {:induction false} InsertHasNoDescent<T(!new)>(less: (T, T) -> bool, x: T, s: seq<T>)
    requires StrictWeak(less)
    requires forall i, j :: 0 <= i < j < |s| ==> !less(s[j], s[i])
    ensures |Insert(less, x, s)| == |s| + 1
    ensures forall i, j :: 0 <= i < j <= |s| ==> !less(Insert(less, x, s)[j], Insert(less, x, s)[i])
  {
    InsertMultiset(less, x, s);
    if s == [] {
    } else if less(x, s[|s| - 1]) {
      var last := s[|s| - 1];
      var front := s[..|s| - 1];
      InsertHasNoDescent(less, x, front);
      InsertMultiset(less, x, front);
      var r := Insert(less, x, front);
      forall i | 0 <= i < |r| ensures !less(last, r[i]) {
        assert r[i] in multiset(r);
        assert r[i] == x || r[i] in front;
      }
    } else {
      forall i | 0 <= i < |s| ensures !less(x, s[i]) {
        assert i == |s| - 1 || !less(s[|s| - 1], s[i]);
      }
    }
  }
}
