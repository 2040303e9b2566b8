/** Byte-wise string order, and the insertion sort every sorted listing is specified by. */
module Order {
  /** Lexicographic order, character by character. */
  predicate Less(a: string, b: string) {
    b != [] && (a == [] || a[0] < b[0] || (a[0] == b[0] && Less(a[1..], b[1..])))
  }

  lemma {:induction false} LessIsTotal(a: string, b: string)
    ensures Less(a, b) || Less(b, a) || a == b
    ensures !(Less(a, b) && Less(b, a)) && (a == b ==> !Less(a, b))
  {
    if a != [] && b != [] && a[0] == b[0] {
      LessIsTotal(a[1..], b[1..]);
      assert a == [a[0]] + a[1..] && b == [b[0]] + b[1..];
    }
  }

  lemma {:induction false} LessIsTransitive(a: string, b: string, c: string)
    requires Less(a, b) && Less(b, c)
    ensures Less(a, c)
  {
    if a != [] && a[0] == b[0] == c[0] {
      LessIsTransitive(a[1..], b[1..], c[1..]);
    }
  }

  /** `a` comes before `b` in the dictionary: after `k` characters in common it is at its end and `b` is not,
      or its next character is the smaller. */
  ghost predicate BeforeAt(a: string, b: string, k: nat) {
    && k <= |a| && k < |b| && a[..k] == b[..k]
    && (k < |a| ==> a[k] < b[k])
  }

  ghost predicate Before(a: string, b: string) {
    exists k: nat :: BeforeAt(a, b, k)
  }

  lemma {:induction false} BeforeIsLess(a: string, b: string, k: nat)
    requires BeforeAt(a, b, k)
    ensures Less(a, b)
  {
    if k > 0 {
      assert a[0] == a[..k][0] == b[..k][0] == b[0];
      assert a[1..][..k - 1] == a[..k][1..] == b[..k][1..] == b[1..][..k - 1];
      BeforeIsLess(a[1..], b[1..], k - 1);
    }
  }

  lemma {:induction false} LessIsBefore(a: string, b: string) returns (k: nat)
    requires Less(a, b)
    ensures BeforeAt(a, b, k)
  {
    k := 0;
    if a != [] && a[0] == b[0] {
      var n := LessIsBefore(a[1..], b[1..]);
      assert a[..n + 1] == [a[0]] + a[1..][..n] == [b[0]] + b[1..][..n] == b[..n + 1];
      k := n + 1;
    }
  }

  /** The recursive comparison is dictionary order. */
  lemma LessIff(a: string, b: string)
    ensures Less(a, b) <==> Before(a, b)
  {
    if Less(a, b) {
      var k := LessIsBefore(a, b);
    }
    if Before(a, b) {
      var k: nat :| BeforeAt(a, b, k);
      BeforeIsLess(a, b, k);
    }
  }

  /** A stable insertion of `x` before the first greater item. */
  function Insert<T>(items: seq<T>, x: T, less: (T, T) -> bool): seq<T> {
    if items == [] || less(x, items[0]) then [x] + items
    else [items[0]] + Insert(items[1..], x, less)
  }

  /** What a stable sort returns. */
  function Sorted<T>(items: seq<T>, less: (T, T) -> bool): seq<T> {
    if items == [] then []
    else Insert(Sorted(items[..|items| - 1], less), items[|items| - 1], less)
  }

  ghost predicate Transitive<T(!new)>(less: (T, T) -> bool) {
    forall a, b, c :: less(a, b) && less(b, c) ==> less(a, c)
  }

  ghost predicate Increasing<T>(items: seq<T>, less: (T, T) -> bool) {
    forall i, j :: 0 <= i < j < |items| ==> less(items[i], items[j])
  }

  /** The order tells any two of the items apart. */
  ghost predicate Distinct<T>(items: seq<T>, less: (T, T) -> bool) {
    forall i, j :: 0 <= i < |items| && 0 <= j < |items| && i != j ==>
      less(items[i], items[j]) != less(items[j], items[i])
  }

  lemma {:induction false} InsertKeeps<T(!new)>(items: seq<T>, x: T, less: (T, T) -> bool)
    requires Transitive(less) && Increasing(items, less)
    requires forall i :: 0 <= i < |items| ==> less(items[i], x) != less(x, items[i])
    ensures Increasing(Insert(items, x, less), less)
    ensures forall y :: y in Insert(items, x, less) <==> y == x || y in items
  {
    if items != [] {
      assert items == [items[0]] + items[1..];
      if !less(x, items[0]) {
        InsertKeeps(items[1..], x, less);
        var rest := Insert(items[1..], x, less);
        forall i | 0 <= i < |rest| ensures less(items[0], rest[i]) {
          assert rest[i] in rest;
        }
      }
    }
  }

  /** Sorting items the order tells apart gives an increasing list of the same items. */
  lemma {:induction false} SortKeeps<T(!new)>(items: seq<T>, less: (T, T) -> bool)
    requires Transitive(less) && Distinct(items, less)
    ensures Increasing(Sorted(items, less), less)
    ensures forall y :: y in Sorted(items, less) <==> y in items
  {
    if items != [] {
      var n := |items| - 1;
      var front := Sorted(items[..n], less);
      SortKeeps(items[..n], less);
      forall i | 0 <= i < |front| ensures less(front[i], items[n]) != less(items[n], front[i]) {
        assert front[i] in items[..n];
      }
      InsertKeeps(front, items[n], less);
      assert items == items[..n] + [items[n]];
    }
  }

  ghost predicate Asymmetric<T(!new)>(less: (T, T) -> bool) {
    forall a, b :: less(a, b) ==> !less(b, a)
  }

  lemma TailElements<T(!new)>(items: seq<T>, less: (T, T) -> bool, x: T)
    requires Asymmetric(less) && Increasing(items, less) && items != []
    ensures x in items[1..] <==> x in items && x != items[0]
  {
    assert items == [items[0]] + items[1..];
    if x in items[1..] {
      var i :| 0 <= i < |items| - 1 && items[1..][i] == x;
      assert less(items[0], items[i + 1]);
    }
  }

  lemma HeadIsLeast<T>(items: seq<T>, less: (T, T) -> bool, i: nat)
    requires Increasing(items, less) && i < |items|
    ensures items[0] == items[i] || less(items[0], items[i])
  {
  }

  /** An increasing list is determined by its items. */
  lemma {:induction false} IncreasingIsUnique<T(!new)>(a: seq<T>, b: seq<T>, less: (T, T) -> bool)
    requires Asymmetric(less) && Increasing(a, less) && Increasing(b, less)
    requires forall x :: x in a <==> x in b
    ensures a == b
  {
    assert b != [] ==> b[0] in a;
    assert a != [] ==> a[0] in b;
    if a != [] && b != [] {
      var j :| 0 <= j < |b| && b[j] == a[0];
      var i :| 0 <= i < |a| && a[i] == b[0];
      HeadIsLeast(a, less, i);
      HeadIsLeast(b, less, j);
      forall x ensures x in a[1..] <==> x in b[1..] {
        TailElements(a, less, x);
        TailElements(b, less, x);
      }
      IncreasingIsUnique(a[1..], b[1..], less);
      assert a == [a[0]] + a[1..] && b == [b[0]] + b[1..];
    }
  }

  /** Sorting forgets the order the items came in. */
  lemma SortForgetsOrder<T(!new)>(a: seq<T>, b: seq<T>, less: (T, T) -> bool)
    requires Transitive(less) && Asymmetric(less) && Distinct(a, less) && Distinct(b, less)
    requires forall x :: x in a <==> x in b
    ensures Sorted(a, less) == Sorted(b, less)
  {
    SortKeeps(a, less);
    SortKeeps(b, less);
    IncreasingIsUnique(Sorted(a, less), Sorted(b, less), less);
  }

  /** `f` of every item, in order. */
  function Each<A, B>(items: seq<A>, f: A -> B): seq<B> {
    seq(|items|, i requires 0 <= i < |items| => f(items[i]))
  }

  /** The same items give the same results. */
  lemma EachTogether<A, B>(a: seq<A>, b: seq<A>, f: A -> B)
    requires forall x :: x in a <==> x in b
    ensures forall y :: y in Each(a, f) <==> y in Each(b, f)
  {
    forall y ensures y in Each(a, f) <==> y in Each(b, f) {
      EachWithin(a, b, f, y);
      EachWithin(b, a, f, y);
    }
  }

  lemma EachWithin<A, B>(a: seq<A>, b: seq<A>, f: A -> B, y: B)
    requires forall x :: x in a ==> x in b
    ensures y in Each(a, f) ==> y in Each(b, f)
  {
    if y in Each(a, f) {
      var i :| 0 <= i < |a| && Each(a, f)[i] == y;
      assert a[i] in b;
      var j :| 0 <= j < |b| && b[j] == a[i];
      assert Each(b, f)[j] == y;
    }
  }

  lemma EachWithout<A, B>(items: seq<A>, k: nat, f: A -> B)
    requires k < |items|
    ensures multiset(Each(items, f)) == multiset(Each(items[..k] + items[k + 1..], f)) + multiset{f(items[k])}
    ensures multiset(items) == multiset(items[..k] + items[k + 1..]) + multiset{items[k]}
  {
    var rest := items[..k] + items[k + 1..];
    assert items == items[..k] + [items[k]] + items[k + 1..];
    assert Each(items, f) == Each(items[..k], f) + [f(items[k])] + Each(items[k + 1..], f);
    assert Each(rest, f) == Each(items[..k], f) + Each(items[k + 1..], f);
  }

  /** Items in another order give the results in another order. */
  lemma {:induction false} EachFollows<A, B>(a: seq<A>, b: seq<A>, f: A -> B)
    requires multiset(a) == multiset(b)
    ensures multiset(Each(a, f)) == multiset(Each(b, f))
    decreases |a|
  {
    assert b != [] ==> b[0] in multiset(a);
    if a != [] {
      assert a[0] in multiset(b);
      var k :| 0 <= k < |b| && b[k] == a[0];
      EachWithout(a, 0, f);
      EachWithout(b, k, f);
      var x, y := a[..0] + a[1..], b[..k] + b[k + 1..];
      assert multiset(x) == multiset(a) - multiset{a[0]} == multiset(y);
      EachFollows(x, y, f);
    }
  }
}
