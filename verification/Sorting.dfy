/** Stable insertion sort by a key. */
module Sorting {
  import opened Basics

  predicate Ordered<T>(s: seq<T>, key: T -> real) { forall i, j :: 0 <= i < j < |s| ==> key(s[i]) <= key(s[j]) }

  /** Puts x behind the last element whose key is not greater. */
  function Insert<T>(s: seq<T>, x: T, key: T -> real): seq<T> {
    if |s| == 0 || key(Last(s)) <= key(x) then s + [x] else Insert(Front(s), x, key) + [Last(s)]
  }

  function Sort<T>(s: seq<T>, key: T -> real): seq<T> {
    if |s| == 0 then s else Insert(Sort(Front(s), key), Last(s), key)
  }

  predicate AtMost<T>(s: seq<T>, key: T -> real, top: real) { forall i :: 0 <= i < |s| ==> key(s[i]) <= top }

  lemma AtMostSnoc<T>(s: seq<T>, x: T, key: T -> real, top: real)
    ensures AtMost(s + [x], key, top) <==> AtMost(s, key, top) && key(x) <= top
  {
    var t := s + [x];
    assert t[|s|] == x && forall i :: 0 <= i < |s| ==> t[i] == s[i];
  }

  lemma OrderedSnoc<T>(s: seq<T>, x: T, key: T -> real)
    ensures Ordered(s + [x], key) <==> Ordered(s, key) && AtMost(s, key, key(x))
  {
    var t := s + [x];
    assert t[|s|] == x && forall i :: 0 <= i < |s| ==> t[i] == s[i];
    if Ordered(t, key) {
      forall i | 0 <= i < |s| ensures key(s[i]) <= key(x) {
        assert key(t[i]) <= key(t[|s|]);
      }
    }
  }

  lemma {:induction false} InsertAtMost<T>(s: seq<T>, x: T, key: T -> real, top: real)
    requires AtMost(s, key, top) && key(x) <= top
    ensures AtMost(Insert(s, x, key), key, top)
  {
    hide AtMost;
    if |s| == 0 || key(Last(s)) <= key(x) {
      AtMostSnoc(s, x, key, top);
    } else {
      assert s == Front(s) + [Last(s)];
      AtMostSnoc(Front(s), Last(s), key, top);
      InsertAtMost(Front(s), x, key, top);
      AtMostSnoc(Insert(Front(s), x, key), Last(s), key, top);
    }
  }

  lemma AtMostMore<T>(s: seq<T>, key: T -> real, low: real, high: real)
    requires AtMost(s, key, low) && low <= high
    ensures AtMost(s, key, high)
  {
  }

  lemma {:induction false} InsertOrdered<T>(s: seq<T>, x: T, key: T -> real)
    requires Ordered(s, key)
    ensures Ordered(Insert(s, x, key), key)
  {
    hide AtMost, Ordered;
    if |s| == 0 {
      OrderedSnoc(s, x, key);
      assert AtMost(s, key, key(x)) by {
        AtMostNone(s, key, key(x));
      }
    } else {
      var front, last := Front(s), Last(s);
      assert s == front + [last];
      OrderedSnoc(front, last, key);
      if key(last) <= key(x) {
        AtMostMore(front, key, key(last), key(x));
        AtMostSnoc(front, last, key, key(x));
        OrderedSnoc(s, x, key);
      } else {
        InsertOrdered(front, x, key);
        InsertAtMost(front, x, key, key(last));
        OrderedSnoc(Insert(front, x, key), last, key);
      }
    }
  }

  lemma AtMostNone<T>(s: seq<T>, key: T -> real, top: real)
    requires |s| == 0
    ensures AtMost(s, key, top)
  {
  }

  lemma {:induction false} InsertKeeps<T>(s: seq<T>, x: T, key: T -> real)
    ensures multiset(Insert(s, x, key)) == multiset(s) + multiset{x}
  {
    if |s| > 0 && key(Last(s)) > key(x) {
      InsertKeeps(Front(s), x, key);
      assert s == Front(s) + [Last(s)];
    }
  }

  /** The sorted list is in order and holds the same elements as often. */
  lemma {:induction false} SortSorts<T>(s: seq<T>, key: T -> real)
    ensures Ordered(Sort(s, key), key) && multiset(Sort(s, key)) == multiset(s)
  {
    hide Insert;
    if |s| > 0 {
      SortSorts(Front(s), key);
      InsertOrdered(Sort(Front(s), key), Last(s), key);
      InsertKeeps(Sort(Front(s), key), Last(s), key);
      assert s == Front(s) + [Last(s)];
      hide Ordered, Sort;
    }
  }
}
