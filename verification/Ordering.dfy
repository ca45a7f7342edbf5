/** What sort.Slice promises, and when that promise leaves only one result. */
module Ordering {

  /** No later element sorts before an earlier one. */
  ghost predicate Sorted<T(!new)>(xs: seq<T>, less: (T, T) -> bool) {
    forall i, j :: 0 <= i < j < |xs| ==> !less(xs[j], xs[i])
  }

  /** A permutation in order; sort.Slice may return any such sequence. */
  ghost predicate SortsTo<T(!new)>(xs: seq<T>, ys: seq<T>, less: (T, T) -> bool) {
    multiset(ys) == multiset(xs) && Sorted(ys, less)
  }

  ghost predicate Distinct<T(!new)>(xs: seq<T>) {
    forall i, j :: 0 <= i < j < |xs| ==> xs[i] != xs[j]
  }

  ghost predicate ConnectedOn<T(!new)>(xs: seq<T>, less: (T, T) -> bool) {
    forall a, b :: a in xs && b in xs && a != b ==> less(a, b) || less(b, a)
  }

  /** Sorted sequences without repetition and with the same elements are equal when the order is total on them. */
  lemma {:induction false} SortedUnique<T(!new)>(xs: seq<T>, ys: seq<T>, less: (T, T) -> bool)
    requires Sorted(xs, less) && Sorted(ys, less) && Distinct(xs) && Distinct(ys) && ConnectedOn(xs, less)
    requires forall x :: x in xs <==> x in ys
    ensures xs == ys
  {
    assert xs != [] ==> xs[0] in xs;
    assert ys != [] ==> ys[0] in ys;
    if xs != [] && ys != [] {
      HeadsAgree(xs, ys, less);
      forall x ensures x in xs[1..] <==> x in ys[1..] {
        if x in xs[1..] { assert x != xs[0] && x in xs; assert x in ys; }
        if x in ys[1..] { assert x != ys[0] && x in ys; assert x in xs; }
      }
      SortedUnique(xs[1..], ys[1..], less);
      assert xs == [xs[0]] + xs[1..] == [ys[0]] + ys[1..] == ys;
    }
  }

  lemma HeadsAgree<T(!new)>(xs: seq<T>, ys: seq<T>, less: (T, T) -> bool)
    requires Sorted(xs, less) && Sorted(ys, less) && ConnectedOn(xs, less)
    requires xs != [] && ys != [] && xs[0] in ys && ys[0] in xs
    ensures xs[0] == ys[0]
  {
    var i :| 0 <= i < |xs| && xs[i] == ys[0];
    var j :| 0 <= j < |ys| && ys[j] == xs[0];
    assert xs[0] in xs;
  }

  lemma PermutationKeeps<T(!new)>(xs: seq<T>, ys: seq<T>)
    requires multiset(ys) == multiset(xs)
    ensures |xs| == |ys|
    ensures forall x :: x in xs <==> x in ys
    ensures Distinct(xs) ==> Distinct(ys)
  {
    assert |multiset(xs)| == |multiset(ys)|;
    forall x ensures x in xs <==> x in ys {
      assert x in multiset(xs) <==> x in multiset(ys);
    }
    if Distinct(xs) {
      forall x | x in xs ensures multiset(xs)[x] <= 1 { DistinctCount(xs, x); }
      forall i, j | 0 <= i < j < |ys| ensures ys[i] != ys[j] {
        var x := ys[i];
        assert ys == ys[..i] + [x] + ys[i + 1..j] + [ys[j]] + ys[j + 1..];
        assert x in ys && x in xs;
      }
    }
  }

  lemma {:induction false} DistinctCount<T(!new)>(xs: seq<T>, x: T)
    requires Distinct(xs)
    ensures multiset(xs)[x] <= 1
  {
    if xs != [] {
      DistinctCount(xs[1..], x);
      assert xs == [xs[0]] + xs[1..];
      if x == xs[0] {
        assert x !in xs[1..];
      }
    }
  }

  // ----- sorting can be done -----

  /** Antisymmetric, and ties are transitive. */
  ghost predicate StrictWeak<T(!new)>(less: (T, T) -> bool) {
    && (forall a, b :: !(less(a, b) && less(b, a)))
    && (forall a, b, c :: !less(a, b) && !less(b, c) ==> !less(a, c))
  }

  function Insert<T>(x: T, xs: seq<T>, less: (T, T) -> bool): seq<T> {
    if xs == [] then [x] else if less(xs[0], x) then [xs[0]] + Insert(x, xs[1..], less) else [x] + xs
  }

  function InsertionSort<T>(xs: seq<T>, less: (T, T) -> bool): seq<T> {
    if xs == [] then [] else Insert(xs[0], InsertionSort(xs[1..], less), less)
  }

  lemma FirstIsLeast<T(!new)>(x: T, xs: seq<T>, less: (T, T) -> bool)
    requires forall y :: y in xs ==> !less(y, x)
    requires Sorted(xs, less)
    ensures Sorted([x] + xs, less)
  {
    forall j | 0 <= j < |xs| ensures !less(xs[j], x) { assert xs[j] in xs; }
  }

  /** In a sorted sequence nothing sorts before the first element. */
  lemma NoneBeforeFirst<T(!new)>(xs: seq<T>, less: (T, T) -> bool, y: T)
    requires StrictWeak(less) && Sorted(xs, less) && xs != [] && y in xs
    ensures !less(y, xs[0])
  {
    var j :| 0 <= j < |xs| && xs[j] == y;
  }

  lemma {:induction false} InsertSorts<T(!new)>(x: T, xs: seq<T>, less: (T, T) -> bool)
    requires StrictWeak(less) && Sorted(xs, less)
    ensures SortsTo([x] + xs, Insert(x, xs, less), less)
  {
    if xs != [] && less(xs[0], x) {
      var rest := Insert(x, xs[1..], less);
      InsertSorts(x, xs[1..], less);
      PermutationKeeps([x] + xs[1..], rest);
      assert [x] + xs == [x] + ([xs[0]] + xs[1..]);
      forall y | y in rest ensures !less(y, xs[0]) {
        if y != x { NoneBeforeFirst(xs, less, y); }
      }
      FirstIsLeast(xs[0], rest, less);
    } else if xs != [] {
      forall y | y in xs ensures !less(y, x) { NoneBeforeFirst(xs, less, y); }
      FirstIsLeast(x, xs, less);
    }
  }

  lemma {:induction false} InsertionSortSorts<T(!new)>(xs: seq<T>, less: (T, T) -> bool)
    requires StrictWeak(less)
    ensures SortsTo(xs, InsertionSort(xs, less), less)
  {
    if xs != [] {
      var rest := InsertionSort(xs[1..], less);
      InsertionSortSorts(xs[1..], less);
      InsertSorts(xs[0], rest, less);
      assert xs == [xs[0]] + xs[1..];
      assert multiset([xs[0]] + rest) == multiset(xs);
    }
  }
}
