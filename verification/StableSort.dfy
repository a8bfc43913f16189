/** Stable sorting by an order on values, as slice::sort_by and SQL's ORDER BY do it, and the byte order on text. */
module StableSort {

  /** Nothing comes before itself, and "not after" chains. */
  ghost predicate WeakOrder<T(!new)>(before: (T, T) -> bool) {
    && (forall a, b :: before(a, b) ==> !before(b, a))
    && (forall a, b, c :: !before(b, a) && !before(c, b) ==> !before(c, a))
  }

  predicate Sorted<T>(items: seq<T>, before: (T, T) -> bool) {
    forall i, j :: 0 <= i < j < |items| ==> !before(items[j], items[i])
  }

  /** Any two places hold items that the order tells apart. */
  predicate Separated<T>(items: seq<T>, before: (T, T) -> bool) {
    forall i, j :: 0 <= i < j < |items| ==> before(items[i], items[j]) || before(items[j], items[i])
  }

  /** Puts an item behind every item that is not after it. */
  function Insert<T(==)>(item: T, sorted: seq<T>, before: (T, T) -> bool): (r: seq<T>)
    ensures multiset(r) == multiset(sorted) + multiset{item}
  {
    if sorted == [] then [item]
    else
      var last := sorted[|sorted| - 1];
      assert sorted == sorted[..|sorted| - 1] + [last];
      if before(item, last) then Insert(item, sorted[..|sorted| - 1], before) + [last] else sorted + [item]
  }

  function Sort<T(==)>(items: seq<T>, before: (T, T) -> bool): (r: seq<T>)
    ensures multiset(r) == multiset(items)
  {
    if items == [] then []
    else
      assert items == items[..|items| - 1] + [items[|items| - 1]];
      Insert(items[|items| - 1], Sort(items[..|items| - 1], before), before)
  }

  lemma {:induction false} InsertKeepsSorted<T(!new)>(item: T, sorted: seq<T>, before: (T, T) -> bool)
    requires WeakOrder(before) && Sorted(sorted, before)
    ensures Sorted(Insert(item, sorted, before), before)
  {
    if sorted != [] {
      var front, last := sorted[..|sorted| - 1], sorted[|sorted| - 1];
      if before(item, last) {
        InsertKeepsSorted(item, front, before);
        var inserted := Insert(item, front, before);
        forall i | 0 <= i < |inserted|
          ensures !before(last, inserted[i])
        {
          assert inserted[i] in multiset(front) + multiset{item};
        }
      } else {
        forall i | 0 <= i < |sorted|
          ensures !before(item, sorted[i])
        {
          assert i < |front| ==> !before(last, sorted[i]);
        }
      }
    }
  }

  lemma {:induction false} SortIsSorted<T(!new)>(items: seq<T>, before: (T, T) -> bool)
    requires WeakOrder(before)
    ensures Sorted(Sort(items, before), before)
  {
    if items != [] {
      SortIsSorted(items[..|items| - 1], before);
      InsertKeepsSorted(items[|items| - 1], Sort(items[..|items| - 1], before), before);
    }
  }

  lemma {:induction false} SortOfSorted<T>(items: seq<T>, before: (T, T) -> bool)
    requires Sorted(items, before)
    ensures Sort(items, before) == items
  {
    if items != [] {
      SortOfSorted(items[..|items| - 1], before);
      assert items == items[..|items| - 1] + [items[|items| - 1]];
    }
  }

  lemma LastsAgree<T>(a: seq<T>, b: seq<T>, before: (T, T) -> bool)
    requires Sorted(a, before) && Sorted(b, before) && Separated(a, before)
    requires multiset(a) == multiset(b) && a != [] && b != []
    ensures a[|a| - 1] == b[|b| - 1]
  {
    var lastA, lastB := a[|a| - 1], b[|b| - 1];
    assert lastA in multiset(b) && lastB in multiset(a);
    var i :| 0 <= i < |b| && b[i] == lastA;
    var j :| 0 <= j < |a| && a[j] == lastB;
    assert j < |a| - 1 ==> before(a[j], a[|a| - 1]);
    assert i < |b| - 1 ==> !before(b[|b| - 1], b[i]);
  }

  lemma FrontsAgree<T>(a: seq<T>, b: seq<T>)
    requires multiset(a) == multiset(b) && a != [] && b != [] && a[|a| - 1] == b[|b| - 1]
    ensures multiset(a[..|a| - 1]) == multiset(b[..|b| - 1])
  {
    assert a == a[..|a| - 1] + [a[|a| - 1]] && b == b[..|b| - 1] + [b[|b| - 1]];
    assert multiset(a[..|a| - 1]) == multiset(a) - multiset{a[|a| - 1]};
  }

  /** Items that the order tells apart have one sorted arrangement. */
  lemma {:induction false} SortedIsUnique<T>(a: seq<T>, b: seq<T>, before: (T, T) -> bool)
    requires Sorted(a, before) && Sorted(b, before) && Separated(a, before) && multiset(a) == multiset(b)
    ensures a == b
    decreases |a|
  {
    assert |multiset(a)| == |a| && |multiset(b)| == |b|;
    if a != [] {
      LastsAgree(a, b, before);
      FrontsAgree(a, b);
      SortedIsUnique(a[..|a| - 1], b[..|b| - 1], before);
      assert a == a[..|a| - 1] + [a[|a| - 1]] && b == b[..|b| - 1] + [b[|b| - 1]];
    }
  }

  /** Being told apart is a matter of which items there are, not of their order. */
  lemma SeparatedIsUnordered<T(!new)>(a: seq<T>, b: seq<T>, before: (T, T) -> bool)
    requires WeakOrder(before) && Separated(a, before) && multiset(a) == multiset(b)
    ensures Separated(b, before)
  {
    forall i, j | 0 <= i < j < |b|
      ensures before(b[i], b[j]) || before(b[j], b[i])
    {
      assert b[i] in multiset(a) && b[j] in multiset(a);
      var k :| 0 <= k < |a| && a[k] == b[i];
      var l :| 0 <= l < |a| && a[l] == b[j];
      if k == l {
        TwiceInMultiset(b, i, j);
        OnceInMultiset(a, k, before);
      }
    }
  }

  lemma TwiceInMultiset<T>(items: seq<T>, i: nat, j: nat)
    requires i < j < |items| && items[i] == items[j]
    ensures multiset(items)[items[i]] >= 2
  {
    assert items == items[..j] + ([items[j]] + items[j + 1..]);
    assert items[..j][i] == items[i];
    assert multiset(items) == multiset(items[..j]) + (multiset{items[j]} + multiset(items[j + 1..]));
  }

  lemma OnceInMultiset<T(!new)>(items: seq<T>, k: nat, before: (T, T) -> bool)
    requires WeakOrder(before) && Separated(items, before) && k < |items|
    ensures multiset(items)[items[k]] == 1
  {
    var front, back := items[..k], items[k + 1..];
    assert items == front + ([items[k]] + back);
    assert multiset(items) == multiset(front) + (multiset{items[k]} + multiset(back));
    assert !before(items[k], items[k]);
    assert forall i :: 0 <= i < k ==> front[i] == items[i] && front[i] != items[k];
    assert forall i :: 0 <= i < |back| ==> back[i] == items[k + 1 + i] && back[i] != items[k];
  }

  /** Comparing text by bytes. */
  predicate TextBefore(left: string, right: string) {
    && right != ""
    && (left == "" || left[0] < right[0] || (left[0] == right[0] && TextBefore(left[1..], right[1..])))
  }

  /** At the first difference the smaller byte comes first, and a text comes before what it is the beginning of. */
  lemma {:induction false} TextBeforeIs(left: string, right: string)
    ensures TextBefore(left, right)
        <==> exists k: nat :: k <= |left| && k < |right| && left[..k] == right[..k]
                              && (k < |left| ==> left[k] < right[k])
  {
    if left != "" && right != "" && left[0] == right[0] {
      TextBeforeIs(left[1..], right[1..]);
      if TextBefore(left, right) {
        var k: nat :| k <= |left[1..]| && k < |right[1..]| && left[1..][..k] == right[1..][..k]
                      && (k < |left[1..]| ==> left[1..][k] < right[1..][k]);
        assert left[..k + 1] == [left[0]] + left[1..][..k] && right[..k + 1] == [right[0]] + right[1..][..k];
      }
      if k: nat :| k <= |left| && k < |right| && left[..k] == right[..k] && (k < |left| ==> left[k] < right[k]) {
        assert k > 0;
        assert left[1..][..k - 1] == left[..k][1..] == right[..k][1..] == right[1..][..k - 1];
      }
    } else if right != "" {
      assert left[..0] == right[..0] == "";
      assert forall k: nat :: 0 < k <= |left| && k < |right| ==> left[..k][0] == left[0] && right[..k][0] == right[0];
    }
  }

  lemma {:induction false} TextOrderIsStrict(a: string, b: string)
    ensures !(TextBefore(a, b) && TextBefore(b, a))
    ensures a != b ==> TextBefore(a, b) || TextBefore(b, a)
    ensures !TextBefore(a, a)
  {
    if a != "" {
      TextOrderIsStrict(a[1..], a[1..]);
    }
    if a != "" && b != "" {
      TextOrderIsStrict(a[1..], b[1..]);
      assert a == [a[0]] + a[1..] && b == [b[0]] + b[1..];
    }
  }

  lemma {:induction false} TextOrderIsTransitive(a: string, b: string, c: string)
    requires TextBefore(a, b) && TextBefore(b, c)
    ensures TextBefore(a, c)
  {
    if a != "" && a[0] == b[0] && b[0] == c[0] {
      TextOrderIsTransitive(a[1..], b[1..], c[1..]);
    }
  }

  lemma TextOrderChains(a: string, b: string, c: string)
    requires !TextBefore(b, a) && !TextBefore(c, b)
    ensures !TextBefore(c, a)
  {
    TextOrderIsStrict(a, b);
    TextOrderIsStrict(b, c);
    if a != b && b != c {
      TextOrderIsTransitive(a, b, c);
      TextOrderIsStrict(a, c);
    }
  }
}
