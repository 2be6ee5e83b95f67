/**
 Stable sorting by an order given as a function.

 - Sorting keeps the elements, puts them in order and leaves what is in order alone.
 - What stands before another item stays before it when more items are sorted in.
 - Keys that are distinct stay so.
 - A sorted list is determined by its elements when items that compare equal are equal.
 - A strictly sorted list is determined by which elements it has.
 */
module Sorting {

  function Insert<T>(atMost: (T, T) -> bool, items: seq<T>, item: T): seq<T> {
    if items == [] || atMost(items[|items| - 1], item) then items + [item]
    else Insert(atMost, items[..|items| - 1], item) + [items[|items| - 1]]
  }

  function Sort<T>(atMost: (T, T) -> bool, items: seq<T>): seq<T> {
    if items == [] then [] else Insert(atMost, Sort(atMost, items[..|items| - 1]), items[|items| - 1])
  }

  ghost predicate Sorted<T>(atMost: (T, T) -> bool, items: seq<T>) {
    forall i, j :: 0 <= i < j < |items| ==> atMost(items[i], items[j])
  }

  /** Any two can be compared, and comparisons chain. */
  ghost predicate Preorder<T(!new)>(atMost: (T, T) -> bool) {
    && (forall x, y :: atMost(x, y) || atMost(y, x))
    && (forall x, y, z :: atMost(x, y) && atMost(y, z) ==> atMost(x, z))
  }

  lemma {:induction false} InsertElements<T>(atMost: (T, T) -> bool, items: seq<T>, item: T)
    ensures multiset(Insert(atMost, items, item)) == multiset(items) + multiset{item}
  {
    if items != [] && !atMost(items[|items| - 1], item) {
      InsertElements(atMost, items[..|items| - 1], item);
      assert items == items[..|items| - 1] + [items[|items| - 1]];
    }
  }

  lemma SortNone<T>(atMost: (T, T) -> bool)
    ensures Sort(atMost, []) == []
  {
  }

  lemma SortSnoc<T>(atMost: (T, T) -> bool, items: seq<T>, item: T)
    ensures Sort(atMost, items + [item]) == Insert(atMost, Sort(atMost, items), item)
  {
    assert (items + [item])[..|items|] == items;
  }

  lemma {:induction false} SortElements<T>(atMost: (T, T) -> bool, items: seq<T>)
    ensures multiset(Sort(atMost, items)) == multiset(items)
  {
    hide Sort, Insert;
    if items == [] {
      SortNone(atMost);
    } else {
      var n := |items| - 1;
      SortElements(atMost, items[..n]);
      SortSnoc(atMost, items[..n], items[n]);
      InsertElements(atMost, Sort(atMost, items[..n]), items[n]);
      assert items == items[..n] + [items[n]];
      assert multiset(items) == multiset(items[..n]) + multiset{items[n]};
    }
  }

  lemma SameElements<T>(a: seq<T>, b: seq<T>, x: T)
    requires multiset(a) == multiset(b)
    ensures x in a <==> x in b
  {
    assert x in a <==> x in multiset(a);
    assert x in b <==> x in multiset(b);
  }

  lemma InsertHolds<T>(atMost: (T, T) -> bool, items: seq<T>, item: T, x: T)
    ensures x in Insert(atMost, items, item) <==> x in items || x == item
  {
    InsertElements(atMost, items, item);
    assert x in Insert(atMost, items, item) <==> x in multiset(Insert(atMost, items, item));
    assert x in items <==> x in multiset(items);
  }

  lemma SortHolds<T>(atMost: (T, T) -> bool, items: seq<T>)
    ensures forall x :: x in Sort(atMost, items) <==> x in items
  {
    SortElements(atMost, items);
    forall x ensures x in Sort(atMost, items) <==> x in items {
      SameElements(Sort(atMost, items), items, x);
    }
  }

  lemma {:induction false} InsertSorted<T(!new)>(atMost: (T, T) -> bool, items: seq<T>, item: T)
    requires Preorder(atMost) && Sorted(atMost, items)
    ensures Sorted(atMost, Insert(atMost, items, item))
  {
    if items != [] {
      var n := |items| - 1;
      if atMost(items[n], item) {
        assert forall i :: 0 <= i < n ==> atMost(items[i], items[n]);
      } else {
        InsertSorted(atMost, items[..n], item);
        var front := Insert(atMost, items[..n], item);
        forall i | 0 <= i < |front| ensures atMost(front[i], items[n]) {
          InsertHolds(atMost, items[..n], item, front[i]);
        }
      }
    }
  }

  lemma {:induction false} SortSorts<T(!new)>(atMost: (T, T) -> bool, items: seq<T>)
    requires Preorder(atMost)
    ensures Sorted(atMost, Sort(atMost, items))
  {
    if items != [] {
      hide Preorder, Sorted, Insert;
      SortSorts(atMost, items[..|items| - 1]);
      InsertSorted(atMost, Sort(atMost, items[..|items| - 1]), items[|items| - 1]);
    } else {
      assert Sort(atMost, items) == [];
    }
  }

  lemma {:induction false} SortOfSorted<T>(atMost: (T, T) -> bool, items: seq<T>)
    requires Sorted(atMost, items)
    ensures Sort(atMost, items) == items
  {
    if items != [] {
      var n := |items| - 1;
      SortOfSorted(atMost, items[..n]);
      assert items == items[..n] + [items[n]];
    }
  }

  /** One item stands before the other. */
  ghost predicate Before<T(!new)>(items: seq<T>, x: T, y: T) {
    exists i, j :: 0 <= i < j < |items| && items[i] == x && items[j] == y
  }

  lemma {:induction false} InsertKeepsBefore<T(!new)>(atMost: (T, T) -> bool, items: seq<T>, item: T, x: T, y: T)
    requires Before(items, x, y)
    ensures Before(Insert(atMost, items, item), x, y)
  {
    var n := |items| - 1;
    var i, j :| 0 <= i < j <= n && items[i] == x && items[j] == y;
    if atMost(items[n], item) {
      assert (items + [item])[i] == x && (items + [item])[j] == y;
    } else {
      var front := Insert(atMost, items[..n], item);
      assert items[..n][i] == x;
      if j < n {
        assert items[..n][j] == y;
        InsertKeepsBefore(atMost, items[..n], item, x, y);
      } else {
        InsertHolds(atMost, items[..n], item, x);
      }
      BeforeLast(front, items[n], x, y);
    }
  }

  lemma BeforeLast<T(!new)>(items: seq<T>, last: T, x: T, y: T)
    requires Before(items, x, y) || (x in items && y == last)
    ensures Before(items + [last], x, y)
  {
    var all := items + [last];
    if i, j :| 0 <= i < j < |items| && items[i] == x && items[j] == y {
      assert all[i] == x && all[j] == y;
    } else {
      var i :| 0 <= i < |items| && items[i] == x;
      assert all[i] == x && all[|items|] == y;
    }
  }

  /** Items that the sort leaves in order stay in order when more are sorted in behind them. */
  lemma {:induction false} SortKeepsBefore<T(!new)>(atMost: (T, T) -> bool, items: seq<T>, more: seq<T>, x: T, y: T)
    requires Before(Sort(atMost, items), x, y)
    ensures Before(Sort(atMost, items + more), x, y)
  {
    if more == [] {
      assert items + more == items;
    } else {
      hide Sort, Insert;
      var n := |more| - 1;
      SortKeepsBefore(atMost, items, more[..n], x, y);
      var sorted := Sort(atMost, items + more[..n]);
      InsertKeepsBefore(atMost, sorted, more[n], x, y);
      assert items + more == (items + more[..n]) + [more[n]];
      SortSnoc(atMost, items + more[..n], more[n]);
    }
  }

  // ---------------------------------------------------------------- keys

  ghost predicate KeysDistinct<T, K>(key: T -> K, items: seq<T>) {
    forall i, j :: 0 <= i < j < |items| ==> key(items[i]) != key(items[j])
  }

  lemma {:induction false} InsertKeysDistinct<T, K>(atMost: (T, T) -> bool, key: T -> K, items: seq<T>, item: T)
    requires KeysDistinct(key, items) && forall i :: 0 <= i < |items| ==> key(items[i]) != key(item)
    ensures KeysDistinct(key, Insert(atMost, items, item))
  {
    if items != [] && !atMost(items[|items| - 1], item) {
      var n := |items| - 1;
      InsertKeysDistinct(atMost, key, items[..n], item);
      var front := Insert(atMost, items[..n], item);
      forall i | 0 <= i < |front| ensures key(front[i]) != key(items[n]) {
        InsertHolds(atMost, items[..n], item, front[i]);
      }
    }
  }

  lemma {:induction false} SortKeysDistinct<T, K>(atMost: (T, T) -> bool, key: T -> K, items: seq<T>)
    requires KeysDistinct(key, items)
    ensures KeysDistinct(key, Sort(atMost, items))
  {
    if items != [] {
      var n := |items| - 1;
      SortKeysDistinct(atMost, key, items[..n]);
      var before := Sort(atMost, items[..n]);
      SortElements(atMost, items[..n]);
      forall i | 0 <= i < |before| ensures key(before[i]) != key(items[n]) {
        SameElements(before, items[..n], before[i]);
      }
      InsertKeysDistinct(atMost, key, before, items[n]);
    }
  }

  // ---------------------------------------------------------------- lists determined by their elements

  /** Elements that neither comes before the other are the same. */
  ghost predicate TiesAgree<T>(atMost: (T, T) -> bool, items: seq<T>) {
    forall i, j :: 0 <= i < |items| && 0 <= j < |items| && atMost(items[i], items[j]) && atMost(items[j], items[i]) ==>
      items[i] == items[j]
  }

  lemma SameFirst<T>(atMost: (T, T) -> bool, a: seq<T>, b: seq<T>)
    requires a != [] && b != [] && multiset(a) == multiset(b)
    requires Sorted(atMost, a) && Sorted(atMost, b) && TiesAgree(atMost, a)
    ensures a[0] == b[0]
  {
    SameElements(a, b, a[0]);
    SameElements(a, b, b[0]);
    var i :| 0 <= i < |b| && b[i] == a[0];
    var j :| 0 <= j < |a| && a[j] == b[0];
    if 0 < i && 0 < j {
      assert atMost(b[0], b[i]) && atMost(a[0], a[j]);
    }
  }

  /** Sorted lists of the same elements, with their numbers of occurrences, are the same list if ties agree. */
  lemma {:induction false} SortedUnique<T>(atMost: (T, T) -> bool, a: seq<T>, b: seq<T>)
    requires multiset(a) == multiset(b)
    requires Sorted(atMost, a) && Sorted(atMost, b) && TiesAgree(atMost, a)
    ensures a == b
  {
    hide Sorted, TiesAgree;
    assert |a| == |multiset(a)| == |multiset(b)| == |b|;
    if a != [] {
      SameFirst(atMost, a, b);
      RestSorted(atMost, a);
      RestSorted(atMost, b);
      RestAgrees(atMost, a);
      SortedUnique(atMost, a[1..], b[1..]);
      assert a == [a[0]] + a[1..] && b == [b[0]] + b[1..];
    }
  }

  lemma RestAgrees<T>(atMost: (T, T) -> bool, items: seq<T>)
    requires items != [] && TiesAgree(atMost, items)
    ensures TiesAgree(atMost, items[1..])
  {
  }

  lemma RestSorted<T>(atMost: (T, T) -> bool, items: seq<T>)
    requires items != [] && Sorted(atMost, items)
    ensures Sorted(atMost, items[1..]) && multiset(items[1..]) == multiset(items) - multiset{items[0]}
  {
    assert items == [items[0]] + items[1..];
  }

  ghost predicate StrictlySorted<T>(atMost: (T, T) -> bool, items: seq<T>) {
    forall i, j :: 0 <= i < j < |items| ==> atMost(items[i], items[j]) && !atMost(items[j], items[i])
  }

  /** Strictly sorted lists with the same elements are the same list. */
  lemma {:induction false} StrictlySortedUnique<T>(atMost: (T, T) -> bool, a: seq<T>, b: seq<T>)
    requires StrictlySorted(atMost, a) && StrictlySorted(atMost, b) && forall x :: x in a <==> x in b
    ensures a == b
  {
    if a != [] {
      FirstIsFirst(atMost, a);
    }
    if b != [] {
      FirstIsFirst(atMost, b);
    }
    if a != [] && b != [] {
      assert a[0] in b && b[0] in a;
      assert a == [a[0]] + a[1..] && b == [b[0]] + b[1..];
      StrictlySortedUnique(atMost, a[1..], b[1..]);
    }
  }

  lemma FirstIsFirst<T>(atMost: (T, T) -> bool, items: seq<T>)
    requires StrictlySorted(atMost, items) && items != []
    ensures items[0] in items
    ensures forall x :: x in items ==> x == items[0] || (atMost(items[0], x) && !atMost(x, items[0]))
    ensures forall x :: x in items[1..] <==> x in items && x != items[0]
  {
    assert items == [items[0]] + items[1..];
    forall x | x in items[1..] ensures atMost(items[0], x) && !atMost(x, items[0]) && x != items[0] {
      var i :| 0 <= i < |items[1..]| && items[1..][i] == x;
      assert items[i + 1] == x;
    }
  }
}
