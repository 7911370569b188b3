/**
  Sorting with a comparison, as `sort.Slice` is used by the ledger, and why the
  result does not depend on the order in which a Go map is enumerated.
 */
module Ordering {

  ghost predicate StrictWeakOrder<T(!new)>(less: (T, T) -> bool) {
    && (forall x :: !less(x, x))
    && (forall x, y, z :: less(x, y) && less(y, z) ==> less(x, z))
    && (forall x, y, z :: less(x, z) ==> less(x, y) || less(y, z))
  }

  ghost predicate Sorted<T>(xs: seq<T>, less: (T, T) -> bool) {
    forall i, j :: 0 <= i < j < |xs| ==> !less(xs[j], xs[i])
  }

  ghost predicate NoDuplicates<T>(xs: seq<T>) {
    forall i, j :: 0 <= i < j < |xs| ==> xs[i] != xs[j]
  }

  /** `order` lists the keys of a map, each once, in some enumeration order. */
  ghost predicate Enumerates<T(!new)>(order: seq<T>, keys: set<T>) {
    && NoDuplicates(order)
    && (forall k :: k in order <==> k in keys)
  }

  function Insert<T>(x: T, xs: seq<T>, less: (T, T) -> bool): (r: seq<T>)
    ensures multiset(r) == multiset([x] + xs)
  {
    if xs == [] || !less(xs[0], x) then [x] + xs
    else
      assert xs == [xs[0]] + xs[1..];
      [xs[0]] + Insert(x, xs[1..], less)
  }

  function Sort<T>(xs: seq<T>, less: (T, T) -> bool): (r: seq<T>)
    ensures multiset(r) == multiset(xs)
  {
    if xs == [] then []
    else
      assert xs == [xs[0]] + xs[1..];
      Insert(xs[0], Sort(xs[1..], less), less)
  }

  lemma {:induction false} InsertSorted<T(!new)>(x: T, xs: seq<T>, less: (T, T) -> bool)
    requires StrictWeakOrder(less) && Sorted(xs, less)
    ensures Sorted(Insert(x, xs, less), less)
  {
    if xs != [] && less(xs[0], x) {
      var rest := Insert(x, xs[1..], less);
      InsertSorted(x, xs[1..], less);
      forall j | 0 <= j < |rest| ensures !less(rest[j], xs[0]) {
        assert rest[j] in multiset([x] + xs[1..]);
      }
    } else if xs != [] {
      forall j | 0 <= j < |xs| ensures !less(xs[j], x) {
        assert j > 0 ==> !less(xs[j], xs[0]);
      }
    }
  }

  lemma {:induction false} SortSorted<T(!new)>(xs: seq<T>, less: (T, T) -> bool)
    requires StrictWeakOrder(less)
    ensures Sorted(Sort(xs, less), less)
  {
    if xs != [] {
      SortSorted(xs[1..], less);
      InsertSorted(xs[0], Sort(xs[1..], less), less);
    }
  }

  /** A permutation of a list without duplicates has none, and the same elements. */
  lemma PermutationFacts<T(!new)>(xs: seq<T>, ys: seq<T>)
    requires multiset(xs) == multiset(ys)
    ensures forall x :: x in xs <==> x in ys
    ensures NoDuplicates(xs) ==> NoDuplicates(ys)
  {
    forall x ensures x in xs <==> x in ys {
      assert x in xs <==> x in multiset(xs);
      assert x in ys <==> x in multiset(ys);
    }
    if NoDuplicates(xs) && !NoDuplicates(ys) {
      var i, j :| 0 <= i < j < |ys| && ys[i] == ys[j];
      CountTwo(ys, i, j);
      CountOne(xs, ys[i]);
      assert false;
    }
  }

  lemma CountTwo<T>(ys: seq<T>, i: nat, j: nat)
    requires i < j < |ys| && ys[i] == ys[j]
    ensures multiset(ys)[ys[i]] >= 2
  {
    assert ys == ys[..i] + [ys[i]] + ys[i + 1..j] + [ys[j]] + ys[j + 1..];
  }

  lemma {:induction false} CountOne<T>(xs: seq<T>, x: T)
    requires NoDuplicates(xs)
    ensures multiset(xs)[x] <= 1
  {
    if xs != [] {
      assert xs == [xs[0]] + xs[1..];
      CountOne(xs[1..], x);
      if xs[0] == x {
        assert x !in xs[1..];
      }
    }
  }

  lemma HeadIn<T>(ys: seq<T>)
    ensures |ys| > 0 ==> ys[0] in ys
  {
  }

  /** Two sorted lists of the same distinct elements are equal when the order tells all of them apart. */
  lemma {:induction false} SortedUnique<T(!new)>(xs: seq<T>, ys: seq<T>, less: (T, T) -> bool)
    requires Sorted(xs, less) && Sorted(ys, less)
    requires NoDuplicates(xs) && NoDuplicates(ys)
    requires forall x :: x in xs <==> x in ys
    requires forall x, y :: x in xs && y in xs && x != y ==> less(x, y) || less(y, x)
    ensures xs == ys
  {
    if xs == [] {
      HeadIn(ys);
    } else {
      assert xs[0] in ys;
      var j :| 0 <= j < |ys| && ys[j] == xs[0];
      assert ys[0] in xs;
      var i :| 0 <= i < |xs| && xs[i] == ys[0];
      assert xs[0] == ys[0];
      forall x ensures x in xs[1..] <==> x in ys[1..] {
        if x in xs[1..] { assert x in xs && x != xs[0]; assert x in ys; }
        if x in ys[1..] { assert x in ys && x != ys[0]; assert x in xs; }
      }
      SortedUnique(xs[1..], ys[1..], less);
    }
  }

  // ---- Lexicographic order on strings, as Go compares them ----------------------

  predicate LexLess(a: string, b: string) {
    if b == "" then false
    else if a == "" then true
    else a[0] < b[0] || (a[0] == b[0] && LexLess(a[1..], b[1..]))
  }

  /** The strings agree on `n` characters, and then the first one ends or has the smaller character. */
  predicate FirstDifference(a: string, b: string, n: nat) {
    n <= |a| && n < |b| && a[..n] == b[..n] && (n == |a| || a[n] < b[n])
  }

  lemma DifferenceInTail(a: string, b: string, n: nat)
    requires a != "" && b != ""
    ensures n > 0 ==> (FirstDifference(a, b, n) <==> a[0] == b[0] && FirstDifference(a[1..], b[1..], n - 1))
    ensures FirstDifference(a, b, 0) <==> a[0] < b[0]
  {
    if 0 < n <= |a| && n < |b| {
      assert a[..n] == [a[0]] + a[1..][..n - 1] && b[..n] == [b[0]] + b[1..][..n - 1];
      assert a[..n][0] == a[0] && b[..n][0] == b[0];
      assert a[..n][1..] == a[1..][..n - 1] && b[..n][1..] == b[1..][..n - 1];
    }
    assert a[..0] == b[..0];
  }

  /** The order of strings is decided at their first difference. */
  lemma {:induction false} LexLessExactly(a: string, b: string)
    ensures LexLess(a, b) <==> exists n: nat :: FirstDifference(a, b, n)
  {
    if a == "" && b != "" {
      assert FirstDifference(a, b, 0);
    } else if b != "" {
      LexLessExactly(a[1..], b[1..]);
      if a[0] < b[0] {
        DifferenceInTail(a, b, 0);
      } else if LexLess(a, b) {
        var n: nat :| FirstDifference(a[1..], b[1..], n);
        DifferenceInTail(a, b, n + 1);
      } else {
        forall n: nat ensures !FirstDifference(a, b, n) {
          DifferenceInTail(a, b, n);
        }
      }
    }
  }

  lemma {:induction false} LexTotal(a: string, b: string)
    ensures a == b || LexLess(a, b) || LexLess(b, a)
    ensures !(LexLess(a, b) && LexLess(b, a))
    ensures !LexLess(a, a)
  {
    if a != "" {
      LexTotal(a[1..], a[1..]);
      if b != "" {
        LexTotal(a[1..], b[1..]);
        if a[0] == b[0] && a[1..] == b[1..] {
          assert a == [a[0]] + a[1..] == b;
        }
      }
    }
  }

  lemma {:induction false} LexTransitive(a: string, b: string, c: string)
    requires LexLess(a, b) && LexLess(b, c)
    ensures LexLess(a, c)
  {
    if a != "" && a[0] == b[0] == c[0] {
      LexTransitive(a[1..], b[1..], c[1..]);
    }
  }
}
