/** Lists without duplicates: the uuid normaliser, and what the other modules need of lists and sets. */
module Uuids {
  import opened Common

  function ToSet<T>(xs: seq<T>): set<T> {
    set x | x in xs
  }

  lemma ToSetSnoc<T>(xs: seq<T>, x: T)
    ensures ToSet(xs + [x]) == ToSet(xs) + {x}
  {
  }

  lemma ToSetPrefix<T>(xs: seq<T>, i: nat)
    requires i < |xs|
    ensures ToSet(xs[..i + 1]) == ToSet(xs[..i]) + {xs[i]}
    ensures NoDuplicates(xs) ==> xs[i] !in ToSet(xs[..i])
    ensures xs[i] in ToSet(xs)
  {
  }

  lemma ToSetEnds<T>(xs: seq<T>)
    ensures ToSet(xs[..0]) == {} && xs[..|xs|] == xs
  {
  }

  ghost predicate NoDuplicates<T>(xs: seq<T>) {
    forall i, j :: 0 <= i < j < |xs| ==> xs[i] != xs[j]
  }

  lemma {:induction false} ElementsOf<T>(items: set<T>) returns (list: seq<T>)
    ensures NoDuplicates(list) && ToSet(list) == items
  {
    list := [];
    if items != {} {
      var x :| x in items;
      var rest := ElementsOf(items - {x});
      assert x !in ToSet(rest);
      list := [x] + rest;
      assert ToSet(list) == {x} + ToSet(rest);
    }
  }

  /** The list without o, in its order. */
  function Without<O(==)>(list: seq<O>, o: O): seq<O> {
    if list == [] then []
    else
      var front, last := list[..|list| - 1], list[|list| - 1];
      Without(front, o) + if last == o then [] else [last]
  }

  lemma {:induction false} WithoutFacts<O>(list: seq<O>, o: O)
    ensures forall x :: x in Without(list, o) <==> x in list && x != o
    ensures NoDuplicates(list) ==> NoDuplicates(Without(list, o))
    ensures o !in list ==> Without(list, o) == list
    ensures |Without(list, o)| <= |list|
  {
    hide NoDuplicates;
    if list != [] {
      var front, last := list[..|list| - 1], list[|list| - 1];
      WithoutFacts(front, o);
      assert list == front + [last];
      NoDuplicatesSnoc(front, last);
      NoDuplicatesSnoc(Without(front, o), last);
      assert Without(list, o) == if last == o then Without(front, o) else Without(front, o) + [last];
    }
  }

  lemma NoDuplicatesSnoc<T>(list: seq<T>, last: T)
    ensures NoDuplicates(list + [last]) <==> NoDuplicates(list) && last !in list
    ensures forall x :: x in list + [last] <==> x in list || x == last
  {
    var all := list + [last];
    assert all[|list|] == last && all[..|list|] == list;
    if NoDuplicates(all) {
      assert forall i :: 0 <= i < |list| ==> list[i] == all[i];
    }
  }

  /** The non-nil uuids of a list in order of first occurrence. */
  function Distinct(values: seq<Uuid>): seq<Uuid> {
    if values == [] then []
    else
      var front, last := values[..|values| - 1], values[|values| - 1];
      Distinct(front) + if last == NIL_UUID || last in front then [] else [last]
  }

  lemma {:induction false} DistinctFacts(values: seq<Uuid>)
    ensures NoDuplicates(Distinct(values))
    ensures NIL_UUID !in Distinct(values)
    ensures ToSet(Distinct(values)) == ToSet(values) - {NIL_UUID}
    ensures |Distinct(values)| <= |values|
  {
    if values != [] {
      var front, last := values[..|values| - 1], values[|values| - 1];
      DistinctFacts(front);
      assert values == front + [last];
      ToSetSnoc(front, last);
      if last != NIL_UUID && last !in front {
        ToSetSnoc(Distinct(front), last);
        assert Distinct(values) == Distinct(front) + [last];
      } else {
        assert Distinct(values) == Distinct(front);
        assert last in front ==> last in ToSet(front);
      }
      assert last in Distinct(front) <==> last in ToSet(Distinct(front));
    }
  }

  method UniqueUuids(values: seq<Uuid>) returns (result: seq<Uuid>)
    ensures result == Distinct(values)
    ensures NoDuplicates(result) && NIL_UUID !in result
    ensures ToSet(result) == ToSet(values) - {NIL_UUID}
    ensures |result| <= |values|
  {
    var seen: set<Uuid> := {};
    result := [];
    for i := 0 to |values|
      invariant seen == ToSet(values[..i]) - {NIL_UUID}
      invariant result == Distinct(values[..i])
    {
      var value := values[i];
      assert values[..i + 1][..i] == values[..i];
      ToSetPrefix(values, i);
      if value == NIL_UUID {
        continue;
      }
      if value in seen {
        continue;
      }
      seen := seen + {value};
      result := result + [value];
    }
    assert values[..|values|] == values;
    DistinctFacts(values);
  }

  /** The keys of a set in some order, as a range over a Go map delivers them. */
  method Enumerate<T>(items: set<T>) returns (list: seq<T>)
    ensures NoDuplicates(list) && ToSet(list) == items
  {
    list := [];
    var rest := items;
    while rest != {}
      invariant NoDuplicates(list) && ToSet(list) == items - rest && rest <= items
      decreases rest
    {
      var item :| item in rest;
      assert item !in ToSet(list);
      ToSetSnoc(list, item);
      list, rest := list + [item], rest - {item};
    }
  }
}
