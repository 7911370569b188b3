/**
  Choosing some mandates out of the map and sorting them: the common shape of the
  matcher's candidate list and of a lender's mandates by age.
 */
module Selection {
  import opened MapSums
  import opened Model
  import opened Ordering

  /** The mandates that `keep` accepts, in enumeration order. */
  function Select(ms: map<Id, Mandate>, order: seq<Id>, keep: Mandate -> bool): seq<Mandate> {
    if order == [] then []
    else
      (if order[0] in ms && keep(ms[order[0]]) then [ms[order[0]]] else []) + Select(ms, order[1..], keep)
  }

  ghost predicate KeyedById(ms: map<Id, Mandate>) {
    forall id :: id in ms ==> ms[id].id == id
  }

  lemma {:induction false} SelectExact(ms: map<Id, Mandate>, order: seq<Id>, keep: Mandate -> bool)
    requires KeyedById(ms) && NoDuplicates(order)
    ensures
      var cs := Select(ms, order, keep);
      && NoDuplicates(cs)
      && (forall m :: m in cs <==> m.id in order && m.id in ms && ms[m.id] == m && keep(m))
  {
    if order != [] {
      var id, rest := order[0], Select(ms, order[1..], keep);
      SelectExact(ms, order[1..], keep);
      var cs := Select(ms, order, keep);
      forall m ensures m in cs <==> m.id in order && m.id in ms && ms[m.id] == m && keep(m) {
        assert m.id in order <==> m.id == id || m.id in order[1..];
      }
      forall i, j | 0 <= i < j < |cs| ensures cs[i] != cs[j] {
        if cs != rest {
          assert cs[j] in rest;
          assert cs[j].id in order[1..];
        }
      }
    }
  }

  /** Sorting the selection of a whole map: exactly the kept mandates, each id once, in order. */
  lemma SortedSelection(ms: map<Id, Mandate>, order: seq<Id>, keep: Mandate -> bool, less: (Mandate, Mandate) -> bool)
    requires KeyedById(ms) && Enumerates(order, ms.Keys) && StrictWeakOrder(less)
    ensures
      var rs := Sort(Select(ms, order, keep), less);
      && Sorted(rs, less)
      && NoDuplicates(rs)
      && (forall m :: m in rs <==> m.id in ms && ms[m.id] == m && keep(m))
      && (forall i, j :: 0 <= i < j < |rs| ==> rs[i].id != rs[j].id)
  {
    var cs, rs := Select(ms, order, keep), Sort(Select(ms, order, keep), less);
    SelectExact(ms, order, keep);
    SortSorted(cs, less);
    PermutationFacts(cs, rs);
    forall i, j | 0 <= i < j < |rs| ensures rs[i].id != rs[j].id {
      assert rs[i] in rs && rs[j] in rs;
    }
  }

  /** The sorted selection does not depend on the enumeration order when `less` tells the kept mandates apart. */
  lemma SortedSelectionUnique(
    ms: map<Id, Mandate>, order: seq<Id>, order': seq<Id>, keep: Mandate -> bool, less: (Mandate, Mandate) -> bool)
    requires KeyedById(ms) && Enumerates(order, ms.Keys) && Enumerates(order', ms.Keys) && StrictWeakOrder(less)
    requires forall x: Mandate, y: Mandate :: x.id != y.id ==> less(x, y) || less(y, x)
    ensures Sort(Select(ms, order, keep), less) == Sort(Select(ms, order', keep), less)
  {
    SortedSelection(ms, order, keep, less);
    SortedSelection(ms, order', keep, less);
    var rs, rs' := Sort(Select(ms, order, keep), less), Sort(Select(ms, order', keep), less);
    forall x, y | x in rs && y in rs && x != y ensures less(x, y) || less(y, x) {
      assert x.id != y.id;
    }
    SortedUnique(rs, rs', less);
  }

  // ---- Sums over a selection and over the map ----------------------------------------------

  ghost function SeqSum(ms: seq<Mandate>, weight: Mandate -> int): int {
    if ms == [] then 0 else weight(ms[0]) + SeqSum(ms[1..], weight)
  }

  lemma {:induction false} InsertSum(x: Mandate, xs: seq<Mandate>, less: (Mandate, Mandate) -> bool, weight: Mandate -> int)
    ensures SeqSum(Insert(x, xs, less), weight) == weight(x) + SeqSum(xs, weight)
  {
    if xs == [] || !less(xs[0], x) {
      assert ([x] + xs)[1..] == xs;
    } else {
      InsertSum(x, xs[1..], less, weight);
    }
  }

  lemma {:induction false} SortSum(xs: seq<Mandate>, less: (Mandate, Mandate) -> bool, weight: Mandate -> int)
    ensures SeqSum(Sort(xs, less), weight) == SeqSum(xs, weight)
  {
    if xs != [] {
      SortSum(xs[1..], less, weight);
      InsertSum(xs[0], Sort(xs[1..], less), less, weight);
    }
  }

  lemma {:induction false} SelectRestrict(ms: map<Id, Mandate>, order: seq<Id>, keep: Mandate -> bool, id: Id)
    requires id !in order
    ensures Select(ms, order, keep) == Select(ms - {id}, order, keep)
  {
    if order != [] {
      SelectRestrict(ms, order[1..], keep, id);
    }
  }

  lemma {:induction false} SelectSum(ms: map<Id, Mandate>, order: seq<Id>, keep: Mandate -> bool, weight: Mandate -> int)
    requires Enumerates(order, ms.Keys)
    requires forall id :: id in ms && !keep(ms[id]) ==> weight(ms[id]) == 0
    ensures SeqSum(Select(ms, order, keep), weight) == Sum(ms, weight)
    decreases |order|
  {
    if order == [] {
      assert ms.Keys == {};
      assert ms == map[];
    } else {
      var id, rest := order[0], order[1..];
      assert id in order;
      SumRemove(ms, id, weight);
      assert Enumerates(rest, (ms - {id}).Keys) by {
        forall k ensures k in rest <==> k in (ms - {id}).Keys {
          assert k in order <==> k == id || k in rest;
        }
      }
      SelectSum(ms - {id}, rest, keep, weight);
      SelectRestrict(ms, rest, keep, id);
      var cs := Select(ms, rest, keep);
      assert ([ms[id]] + cs)[1..] == cs;
      assert [] + cs == cs;
    }
  }

  /** A weight that vanishes outside the selection has the same sum over the sorted selection and over the map. */
  lemma SortedSelectionSum(
    ms: map<Id, Mandate>, order: seq<Id>, keep: Mandate -> bool, less: (Mandate, Mandate) -> bool, weight: Mandate -> int)
    requires Enumerates(order, ms.Keys)
    requires forall id :: id in ms && !keep(ms[id]) ==> weight(ms[id]) == 0
    ensures SeqSum(Sort(Select(ms, order, keep), less), weight) == Sum(ms, weight)
  {
    SortSum(Select(ms, order, keep), less, weight);
    SelectSum(ms, order, keep, weight);
  }
}
