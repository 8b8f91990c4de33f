/** The library sort that qsort and ListView_SortItems stand for: callers know only that the result
    is a permutation, sorted whenever the comparator orders the elements. */
module Sorting {

  /** The comparator is a total preorder on these elements. */
  ghost predicate Preorders<T(!new)>(compare: (T, T) -> int, items: seq<T>) {
    && (forall a, b | a in items && b in items :: compare(a, b) <= 0 || compare(b, a) <= 0)
    && (forall a, b, c {:trigger compare(a, b), compare(b, c)} | a in items && b in items && c in items ::
      compare(a, b) <= 0 && compare(b, c) <= 0 ==> compare(a, c) <= 0)
  }

  ghost predicate Sorted<T>(compare: (T, T) -> int, items: seq<T>) {
    forall i, j :: 0 <= i < j < |items| ==> compare(items[i], items[j]) <= 0
  }

  /** What a sort may turn `items` into. */
  ghost predicate SortOf<T(!new)>(compare: (T, T) -> int, items: seq<T>, result: seq<T>) {
    && multiset(result) == multiset(items)
    && (Preorders(compare, items) ==> Sorted(compare, result))
  }

  function Insert<T>(compare: (T, T) -> int, x: T, items: seq<T>): (r: seq<T>)
    ensures forall i :: 0 <= i < |r| ==> r[i] == x || r[i] in items
  {
    if items == [] || compare(x, items[0]) <= 0 then [x] + items
    else [items[0]] + Insert(compare, x, items[1..])
  }

  lemma {:induction false} InsertPermutes<T>(compare: (T, T) -> int, x: T, items: seq<T>)
    ensures multiset(Insert(compare, x, items)) == multiset([x] + items)
  {
    if items == [] || compare(x, items[0]) <= 0 {
    } else {
      InsertPermutes(compare, x, items[1..]);
      assert items == [items[0]] + items[1..];
    }
  }

  lemma ConsSorts<T(!new)>(compare: (T, T) -> int, x: T, items: seq<T>)
    requires Sorted(compare, items) && forall i :: 0 <= i < |items| ==> compare(x, items[i]) <= 0
    ensures Sorted(compare, [x] + items)
  {
  }

  lemma {:induction false} InsertSorts<T(!new)>(compare: (T, T) -> int, x: T, items: seq<T>, all: seq<T>)
    requires Sorted(compare, items) && Preorders(compare, all)
    requires x in all && forall i :: 0 <= i < |items| ==> items[i] in all
    ensures Sorted(compare, Insert(compare, x, items))
  {
    if items == [] {
    } else if compare(x, items[0]) > 0 {
      var rest := Insert(compare, x, items[1..]);
      InsertSorts(compare, x, items[1..], all);
      forall i | 0 <= i < |rest| ensures compare(items[0], rest[i]) <= 0 {
        assert rest[i] == x || rest[i] in items[1..];
      }
      ConsSorts(compare, items[0], rest);
    } else {
      forall i | 0 <= i < |items| ensures compare(x, items[i]) <= 0 {
        assert compare(items[0], items[i]) <= 0 || i == 0;
      }
      ConsSorts(compare, x, items);
    }
  }

  method Sort<T(!new)>(items: seq<T>, compare: (T, T) -> int) returns (result: seq<T>)
    ensures SortOf(compare, items, result)
  {
    result := [];
    for n := 0 to |items|
      invariant multiset(result) == multiset(items[..n])
      invariant forall i :: 0 <= i < |result| ==> result[i] in items
      invariant Preorders(compare, items) ==> Sorted(compare, result)
    {
      assert items[..n + 1] == items[..n] + [items[n]];
      InsertPermutes(compare, items[n], result);
      if Preorders(compare, items) {
        InsertSorts(compare, items[n], result, items);
      }
      result := Insert(compare, items[n], result);
    }
    assert items[..|items|] == items;
  }

  lemma SameMembers<T>(a: seq<T>, b: seq<T>)
    requires multiset(a) == multiset(b)
    ensures |a| == |b| && forall x :: x in a <==> x in b
  {
    assert |a| == |multiset(a)| == |b|;
    assert forall x :: x in a <==> x in multiset(a);
    assert forall x :: x in b <==> x in multiset(b);
  }

  /** The comparator tells distinct elements apart. */
  ghost predicate Strict<T(!new)>(compare: (T, T) -> int, items: seq<T>) {
    forall x, y | x in items && y in items && compare(x, y) <= 0 && compare(y, x) <= 0 :: x == y
  }

  /** When the order is strict, at most one arrangement of the elements is sorted. */
  lemma {:induction false} SortedUnique<T(!new)>(compare: (T, T) -> int, a: seq<T>, b: seq<T>)
    requires multiset(a) == multiset(b) && Sorted(compare, a) && Sorted(compare, b) && Strict(compare, a)
    ensures a == b
  {
    SameMembers(a, b);
    if a == [] {
    } else {
      SameHead(compare, a, b);
      TailPermutes(a, b);
      assert Strict(compare, a[1..]);
      assert Sorted(compare, a[1..]) && Sorted(compare, b[1..]);
      hide *;
      SortedUnique(compare, a[1..], b[1..]);
      assert a == [a[0]] + a[1..] && b == [b[0]] + b[1..];
    }
  }

  lemma TailPermutes<T>(a: seq<T>, b: seq<T>)
    requires a != [] && b != [] && a[0] == b[0] && multiset(a) == multiset(b)
    ensures multiset(a[1..]) == multiset(b[1..])
  {
    assert a == [a[0]] + a[1..] && b == [b[0]] + b[1..];
    assert multiset(a[1..]) == multiset(a) - multiset{a[0]};
    assert multiset(b[1..]) == multiset(b) - multiset{b[0]};
  }

  lemma SameHead<T(!new)>(compare: (T, T) -> int, a: seq<T>, b: seq<T>)
    requires |a| == |b| > 0 && (forall x :: x in a <==> x in b)
    requires Sorted(compare, a) && Sorted(compare, b)
    requires Strict(compare, a)
    ensures a[0] == b[0]
  {
    assert a[0] in b && b[0] in a;
    var i :| 0 <= i < |b| && b[i] == a[0];
    var j :| 0 <= j < |a| && a[j] == b[0];
    if i != 0 && j != 0 {
      assert compare(b[0], b[i]) <= 0 && compare(a[0], a[j]) <= 0;
    }
  }
}
