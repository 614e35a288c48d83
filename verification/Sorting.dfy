/** Array.prototype.sort with a comparator that is a total preorder: a stable sort. */
module Sorting {

  /** Whether left may stand before right: the comparator returns at most 0. */
  ghost predicate TotalPreorder<T(!new)>(leq: (T, T) -> bool) {
    && (forall x, y :: leq(x, y) || leq(y, x))
    && (forall x, y, z :: leq(x, y) && leq(y, z) ==> leq(x, z))
  }

  ghost predicate Sorted<T>(items: seq<T>, leq: (T, T) -> bool) {
    forall i, j | 0 <= i < j < |items| :: leq(items[i], items[j])
  }

  function Insert<T>(item: T, sorted: seq<T>, leq: (T, T) -> bool): seq<T> {
    if sorted == [] || leq(item, sorted[0]) then [item] + sorted
    else [sorted[0]] + Insert(item, sorted[1..], leq)
  }

  function Sort<T>(items: seq<T>, leq: (T, T) -> bool): seq<T> {
    if items == [] then [] else Insert(items[0], Sort(items[1..], leq), leq)
  }

  lemma {:induction false} InsertPermutes<T>(item: T, sorted: seq<T>, leq: (T, T) -> bool)
    ensures multiset(Insert(item, sorted, leq)) == multiset{item} + multiset(sorted)
  {
    if sorted == [] || leq(item, sorted[0]) {
    } else {
      InsertPermutes(item, sorted[1..], leq);
      assert sorted == [sorted[0]] + sorted[1..];
    }
  }

  lemma {:induction false} SortPermutes<T>(items: seq<T>, leq: (T, T) -> bool)
    ensures multiset(Sort(items, leq)) == multiset(items)
    ensures |Sort(items, leq)| == |items|
  {
    if items != [] {
      SortPermutes(items[1..], leq);
      InsertPermutes(items[0], Sort(items[1..], leq), leq);
      assert items == [items[0]] + items[1..];
    }
    assert |multiset(Sort(items, leq))| == |Sort(items, leq)|;
  }

  lemma {:induction false} InsertSorts<T(!new)>(item: T, sorted: seq<T>, leq: (T, T) -> bool)
    requires TotalPreorder(leq) && Sorted(sorted, leq)
    ensures Sorted(Insert(item, sorted, leq), leq)
  {
    if sorted == [] {
    } else if leq(item, sorted[0]) {
      assert forall j | 0 <= j < |sorted| :: leq(item, sorted[j]);
    } else {
      var rest := Insert(item, sorted[1..], leq);
      InsertSorts(item, sorted[1..], leq);
      InsertPermutes(item, sorted[1..], leq);
      forall j | 0 <= j < |rest|
        ensures leq(sorted[0], rest[j])
      {
        assert rest[j] in multiset(rest);
        assert rest[j] == item || rest[j] in sorted[1..];
      }
    }
  }

  lemma {:induction false} SortSorts<T(!new)>(items: seq<T>, leq: (T, T) -> bool)
    requires TotalPreorder(leq)
    ensures Sorted(Sort(items, leq), leq)
  {
    if items != [] {
      SortSorts(items[1..], leq);
      InsertSorts(items[0], Sort(items[1..], leq), leq);
    }
  }

  lemma SortMembers<T>(items: seq<T>, leq: (T, T) -> bool, x: T)
    ensures x in Sort(items, leq) <==> x in items
  {
    SortPermutes(items, leq);
    assert x in multiset(items) <==> x in multiset(Sort(items, leq));
  }

  ghost predicate DistinctKeys<T(!new)>(items: seq<T>, key: T -> int) {
    forall i, j | 0 <= i < j < |items| :: key(items[i]) != key(items[j])
  }

  lemma TwoPlaces<T>(items: seq<T>, i: nat, j: nat)
    requires i < j < |items| && items[i] == items[j]
    ensures multiset(items)[items[i]] >= 2
  {
    assert items == items[..j] + items[j..];
    assert items[..j][i] == items[i] && items[j..][0] == items[i];
  }

  lemma {:induction false} TwoPlacesOf<T>(items: seq<T>, x: T)
    requires multiset(items)[x] >= 2
    ensures exists i, j | 0 <= i < j < |items| :: items[i] == x == items[j]
  {
    var i :| 0 <= i < |items| && items[i] == x;
    assert items == items[..i] + [x] + items[i + 1..];
    if x in items[..i] {
      var k :| 0 <= k < i && items[k] == x;
    } else {
      assert multiset(items[..i])[x] == 0;
      assert multiset(items)[x] == multiset(items[..i])[x] + 1 + multiset(items[i + 1..])[x];
      assert x in multiset(items[i + 1..]);
      var k :| 0 <= k < |items[i + 1..]| && items[i + 1..][k] == x;
      assert items[i + 1 + k] == x;
    }
  }

  /** Whether keys are pairwise distinct does not depend on the order. */
  lemma DistinctKeysPermute<T(!new)>(items: seq<T>, items': seq<T>, key: T -> int)
    requires multiset(items) == multiset(items') && DistinctKeys(items, key)
    ensures DistinctKeys(items', key)
  {
    forall i, j | 0 <= i < j < |items'|
      ensures key(items'[i]) != key(items'[j])
    {
      assert items'[i] in multiset(items) && items'[j] in multiset(items);
      if items'[i] == items'[j] {
        TwoPlaces(items', i, j);
        TwoPlacesOf(items, items'[i]);
      }
    }
  }

  ghost predicate Antisymmetric<T(!new)>(leq: (T, T) -> bool) {
    forall x, y :: leq(x, y) && leq(y, x) ==> x == y
  }

  /** Under an antisymmetric order there is only one sorted arrangement. */
  lemma SameFirst<T(!new)>(left: seq<T>, right: seq<T>, leq: (T, T) -> bool)
    requires Antisymmetric(leq) && Sorted(left, leq) && Sorted(right, leq) && multiset(left) == multiset(right)
    requires left != [] && right != []
    ensures left[0] == right[0]
  {
    assert left[0] in multiset(right) && right[0] in multiset(left);
    var i :| 0 <= i < |right| && right[i] == left[0];
    var j :| 0 <= j < |left| && left[j] == right[0];
    assert i > 0 ==> leq(right[0], right[i]);
    assert j > 0 ==> leq(left[0], left[j]);
  }

  lemma {:induction false} SortedIsUnique<T(!new)>(left: seq<T>, right: seq<T>, leq: (T, T) -> bool)
    requires Antisymmetric(leq) && Sorted(left, leq) && Sorted(right, leq) && multiset(left) == multiset(right)
    ensures left == right
    decreases |left|
  {
    assert |left| == |multiset(left)| == |right|;
    if left != [] {
      SameFirst(left, right, leq);
      assert left == [left[0]] + left[1..] && right == [right[0]] + right[1..];
      assert multiset(left[1..]) == multiset(left) - multiset{left[0]};
      assert multiset(right[1..]) == multiset(right) - multiset{right[0]};
      SortedIsUnique(left[1..], right[1..], leq);
    }
  }

  predicate NoRepeats<T(==)>(items: seq<T>) {
    forall i, j | 0 <= i < j < |items| :: items[i] != items[j]
  }

  lemma {:induction false} NoRepeatsCounts<T>(items: seq<T>, x: T)
    requires NoRepeats(items)
    ensures multiset(items)[x] == if x in items then 1 else 0
  {
    if items != [] {
      var n := |items| - 1;
      NoRepeatsCounts(items[..n], x);
      assert items == items[..n] + [items[n]];
    }
  }

  /** Two arrangements without repeats of the same elements are permutations of each other. */
  lemma NoRepeatsPermute<T(!new)>(left: seq<T>, right: seq<T>)
    requires NoRepeats(left) && NoRepeats(right) && forall x :: x in left <==> x in right
    ensures multiset(left) == multiset(right)
  {
    forall x
      ensures multiset(left)[x] == multiset(right)[x]
    {
      NoRepeatsCounts(left, x);
      NoRepeatsCounts(right, x);
    }
  }

  /** Text order by character code. */
  predicate TextLeq(left: string, right: string) {
    left == "" || (right != "" && (left[0] < right[0] || (left[0] == right[0] && TextLeq(left[1..], right[1..]))))
  }

  lemma {:induction false} TextLeqTotal(left: string, right: string)
    ensures TextLeq(left, right) || TextLeq(right, left)
  {
    if left != "" && right != "" {
      TextLeqTotal(left[1..], right[1..]);
    }
  }

  lemma {:induction false} TextLeqTransitive(a: string, b: string, c: string)
    requires TextLeq(a, b) && TextLeq(b, c)
    ensures TextLeq(a, c)
  {
    if a != "" && a[0] == b[0] == c[0] {
      TextLeqTransitive(a[1..], b[1..], c[1..]);
    }
  }

  lemma {:induction false} TextLeqAntisymmetric(left: string, right: string)
    requires TextLeq(left, right) && TextLeq(right, left)
    ensures left == right
  {
    if left != "" {
      TextLeqAntisymmetric(left[1..], right[1..]);
      assert left == [left[0]] + left[1..] && right == [right[0]] + right[1..];
    }
  }

  lemma TextOrder()
    ensures TotalPreorder(TextLeq) && Antisymmetric(TextLeq)
  {
    forall x, y
      ensures TextLeq(x, y) || TextLeq(y, x)
    {
      TextLeqTotal(x, y);
    }
    forall x, y, z | TextLeq(x, y) && TextLeq(y, z)
      ensures TextLeq(x, z)
    {
      TextLeqTransitive(x, y, z);
    }
    forall x, y | TextLeq(x, y) && TextLeq(y, x)
      ensures x == y
    {
      TextLeqAntisymmetric(x, y);
    }
  }
}
