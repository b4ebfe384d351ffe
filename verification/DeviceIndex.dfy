/** An index of objects by device: which lists belong to which tags, whatever the objects are. */
module DeviceIndex {
  import opened Uuids

  type Id = string

  /** The list of a device, empty when it has none. */
  function ListOf<O>(lists: map<Id, seq<O>>, d: Id): seq<O> {
    if d in lists then lists[d] else []
  }

  ghost predicate Distinctly<O>(tags: map<Id, O>) {
    forall i, j :: i in tags && j in tags && tags[i] == tags[j] ==> i == j
  }

  /** Object o is a tag of device d. */
  ghost predicate TagOf<O>(o: O, d: Id, tags: map<Id, O>, owner: map<Id, Id>) {
    exists id :: id in tags && id in owner && tags[id] == o && owner[id] == d
  }

  /** The index is the grouping of the tags by device: the same objects, each once, and no empty list. */
  ghost predicate Groups<O>(lists: map<Id, seq<O>>, tags: map<Id, O>, owner: map<Id, Id>) {
    && tags.Keys == owner.Keys
    && (forall d :: d in lists ==> lists[d] != [] && NoDuplicates(lists[d]))
    && (forall d, o :: o in ListOf(lists, d) ==> TagOf(o, d, tags, owner))
    && (forall id :: id in tags ==> tags[id] in ListOf(lists, owner[id]))
  }

  /** Two groupings of the same tags differ at most in the order of each list. */
  lemma GroupingDetermined<O>(a: map<Id, seq<O>>, b: map<Id, seq<O>>, tags: map<Id, O>, owner: map<Id, Id>)
    requires Groups(a, tags, owner) && Groups(b, tags, owner)
    ensures a.Keys == b.Keys && forall d :: ToSet(ListOf(a, d)) == ToSet(ListOf(b, d))
  {
    hide Groups, ListOf;
    forall d ensures ToSet(ListOf(a, d)) == ToSet(ListOf(b, d)) && (d in a <==> d in b) {
      GroupingWithin(a, b, tags, owner, d);
      GroupingWithin(b, a, tags, owner, d);
    }
  }

  lemma GroupingWithin<O>(a: map<Id, seq<O>>, b: map<Id, seq<O>>, tags: map<Id, O>, owner: map<Id, Id>, d: Id)
    requires Groups(a, tags, owner) && Groups(b, tags, owner)
    ensures ToSet(ListOf(a, d)) <= ToSet(ListOf(b, d))
    ensures d in a ==> d in b
  {
    forall o | o in ListOf(a, d) ensures o in ListOf(b, d) {
      var id :| id in tags && id in owner && tags[id] == o && owner[id] == d;
    }
    if d in a {
      assert a[d][0] in ListOf(a, d);
    }
  }

  /** The index after object o leaves device d. */
  function Unfiled<O(==)>(lists: map<Id, seq<O>>, d: Id, o: O): map<Id, seq<O>> {
    var rest := Without(ListOf(lists, d), o);
    if rest == [] then lists - {d} else lists[d := rest]
  }

  lemma UnfiledGroups<O>(lists: map<Id, seq<O>>, tags: map<Id, O>, owner: map<Id, Id>, id: Id)
    requires Distinctly(tags) && Groups(lists, tags, owner) && id in tags
    ensures Groups(Unfiled(lists, owner[id], tags[id]), tags - {id}, owner - {id}) && Distinctly(tags - {id})
  {
    var d, gone := owner[id], tags[id];
    WithoutFacts(ListOf(lists, d), gone);
    var r := Unfiled(lists, d, gone);
    forall e, o | o in ListOf(r, e) ensures TagOf(o, e, tags - {id}, owner - {id}) {
      assert o in ListOf(lists, e) && !(e == d && o == gone);
      var k :| k in tags && k in owner && tags[k] == o && owner[k] == e;
      assert k != id && (tags - {id})[k] == o && (owner - {id})[k] == e;
    }
    forall k | k in tags - {id} ensures tags[k] in ListOf(r, owner[k]) {
      assert tags[k] in ListOf(lists, owner[k]) && tags[k] != gone;
    }
  }

  /** The index after object o is put at the end of device d's list. */
  function Filed<O(==)>(lists: map<Id, seq<O>>, d: Id, o: O): map<Id, seq<O>> {
    lists[d := ListOf(lists, d) + [o]]
  }

  lemma FiledGroups<O>(lists: map<Id, seq<O>>, tags: map<Id, O>, owner: map<Id, Id>, id: Id, d: Id, o: O)
    requires Distinctly(tags) && Groups(lists, tags, owner) && id !in tags && o !in tags.Values
    ensures Groups(Filed(lists, d, o), tags[id := o], owner[id := d]) && Distinctly(tags[id := o])
  {
    var r, all, owners := Filed(lists, d, o), tags[id := o], owner[id := d];
    assert o !in ListOf(lists, d);
    assert all[id] == o && owners[id] == d;
    forall e, x | x in ListOf(r, e) ensures TagOf(x, e, all, owners) {
      assert x in ListOf(lists, e) || (e == d && x == o);
      if x in ListOf(lists, e) {
        var k :| k in tags && k in owner && tags[k] == x && owner[k] == e;
        assert all[k] == x && owners[k] == e;
      }
    }
  }

  /** The index after a device is gone with all of its tags. */
  lemma DeviceUnfiledGroups<O>(lists: map<Id, seq<O>>, tags: map<Id, O>, owner: map<Id, Id>, d: Id)
    requires Distinctly(tags) && Groups(lists, tags, owner)
    ensures var theirs := set id | id in owner && owner[id] == d;
      Groups(lists - {d}, tags - theirs, owner - theirs) && Distinctly(tags - theirs)
  {
    var theirs := set id | id in owner && owner[id] == d;
    forall e, o | o in ListOf(lists - {d}, e) ensures TagOf(o, e, tags - theirs, owner - theirs) {
      assert e != d && o in ListOf(lists, e);
      var k :| k in tags && k in owner && tags[k] == o && owner[k] == e;
      assert (tags - theirs)[k] == o && (owner - theirs)[k] == e;
    }
  }

  // ---- building the index ---------------------------------------------------------------------------------

  /** Every listed object is a tag, though perhaps of another device. */
  ghost predicate Listed<O>(lists: map<Id, seq<O>>, tags: map<Id, O>) {
    && (forall d :: d in lists ==> lists[d] != [])
    && (forall d, o :: o in ListOf(lists, d) ==> o in tags.Values)
  }

  /** Every list holds only tags of its own device. */
  ghost predicate NoneMisfiled<O>(lists: map<Id, seq<O>>, tags: map<Id, O>, owner: map<Id, Id>) {
    forall d, o :: o in ListOf(lists, d) ==> TagOf(o, d, tags, owner)
  }

  /** Part of the way through: the tags of `done` are filed once each under their devices; of other entries nothing has changed. */
  ghost predicate Refiling<O>(start: map<Id, seq<O>>, lists: map<Id, seq<O>>, tags: map<Id, O>, owner: map<Id, Id>, done: set<Id>) {
    && done <= tags.Keys && tags.Keys == owner.Keys
    && (forall d :: d in lists ==> lists[d] != [])
    && (forall id :: id in done ==> FiledOnce(ListOf(lists, owner[id]), tags[id]))
    && (forall d, o :: o in ListOf(lists, d) && !DoneFor(o, d, tags, owner, done) ==> o in ListOf(start, d))
    && (forall d, o :: o in ListOf(start, d) && !DoneFor(o, d, tags, owner, done) ==> o in ListOf(lists, d))
  }

  ghost predicate DoneFor<O>(o: O, d: Id, tags: map<Id, O>, owner: map<Id, Id>, done: set<Id>) {
    exists id :: id in done && id in tags && id in owner && tags[id] == o && owner[id] == d
  }

  ghost predicate FiledOnce<O>(list: seq<O>, o: O) {
    multiset(list)[o] == 1
  }

  lemma {:induction false} WithoutCounts<O>(list: seq<O>, o: O)
    ensures multiset(Without(list, o)) == multiset(list)[o := 0]
  {
    if list != [] {
      var front, last := list[..|list| - 1], list[|list| - 1];
      WithoutCounts(front, o);
      assert list == front + [last];
    }
  }

  lemma OnceIsNotTwice<O>(list: seq<O>, i: nat, j: nat)
    requires i < j < |list| && list[i] == list[j]
    ensures !FiledOnce(list, list[i])
  {
    assert list == list[..j] + list[j..];
    assert list[..j][i] == list[i] && list[j..][0] == list[i];
  }

  function Refiled<O(==)>(lists: map<Id, seq<O>>, d: Id, o: O): map<Id, seq<O>> {
    lists[d := Without(ListOf(lists, d), o) + [o]]
  }

  lemma RefiledLists<O>(lists: map<Id, seq<O>>, d: Id, o: O)
    ensures Refiled(lists, d, o).Keys == lists.Keys + {d} && ListOf(Refiled(lists, d, o), d) != []
    ensures forall e :: e != d ==> ListOf(Refiled(lists, d, o), e) == ListOf(lists, e)
    ensures multiset(ListOf(Refiled(lists, d, o), d)) == multiset(ListOf(lists, d))[o := 1]
    ensures forall x :: x in ListOf(Refiled(lists, d, o), d) <==> x in ListOf(lists, d) || x == o
  {
    hide Without, NoDuplicates;
    var before := ListOf(lists, d);
    WithoutFacts(before, o);
    WithoutCounts(before, o);
    var after := Without(before, o) + [o];
    assert multiset(after) == multiset(before)[o := 0] + multiset{o};
    assert ListOf(Refiled(lists, d, o), d) == after;
  }

  lemma RefilesOne<O>(start: map<Id, seq<O>>, lists: map<Id, seq<O>>, tags: map<Id, O>, owner: map<Id, Id>, done: set<Id>, id: Id)
    requires Distinctly(tags) && Refiling(start, lists, tags, owner, done) && id in tags && id !in done
    ensures Refiling(start, Refiled(lists, owner[id], tags[id]), tags, owner, done + {id})
  {
    hide Refiled, ListOf, DoneFor, FiledOnce, Distinctly;
    var d, o, more := owner[id], tags[id], done + {id};
    var r := Refiled(lists, d, o);
    RefiledLists(lists, d, o);
    RefilesCounts(lists, tags, owner, done, id);
    forall e | e in r ensures r[e] != [] {
      ListOfIs(r, e);
      ListOfIs(lists, e);
    }
    forall e, x | x in ListOf(r, e) && !DoneFor(x, e, tags, owner, more) ensures x in ListOf(start, e) {
      NotDoneFor(x, e, tags, owner, done, id);
      assert x in ListOf(lists, e);
    }
    forall e, x | x in ListOf(start, e) && !DoneFor(x, e, tags, owner, more) ensures x in ListOf(r, e) {
      NotDoneFor(x, e, tags, owner, done, id);
      assert x in ListOf(lists, e);
    }
  }

  lemma ListOfIs<O>(lists: map<Id, seq<O>>, d: Id)
    ensures d in lists ==> ListOf(lists, d) == lists[d]
  {
  }

  lemma RefilesCounts<O>(lists: map<Id, seq<O>>, tags: map<Id, O>, owner: map<Id, Id>, done: set<Id>, id: Id)
    requires Distinctly(tags) && done <= tags.Keys && tags.Keys == owner.Keys && id in tags && id !in done
    requires forall k :: k in done ==> FiledOnce(ListOf(lists, owner[k]), tags[k])
    ensures forall k :: k in done + {id} ==> FiledOnce(ListOf(Refiled(lists, owner[id], tags[id]), owner[k]), tags[k])
  {
    hide Refiled, ListOf;
    RefiledLists(lists, owner[id], tags[id]);
  }

  lemma NotDoneFor<O>(o: O, d: Id, tags: map<Id, O>, owner: map<Id, Id>, done: set<Id>, id: Id)
    requires id in tags && id in owner && !DoneFor(o, d, tags, owner, done + {id})
    ensures !DoneFor(o, d, tags, owner, done) && !(tags[id] == o && owner[id] == d)
  {
  }

  lemma RefilingListed<O>(start: map<Id, seq<O>>, lists: map<Id, seq<O>>, tags: map<Id, O>, owner: map<Id, Id>, done: set<Id>)
    requires Listed(start, tags) && Refiling(start, lists, tags, owner, done)
    ensures forall d, o :: o in ListOf(lists, d) ==> o in tags.Values
  {
  }

  lemma RefilingStarts<O>(start: map<Id, seq<O>>, tags: map<Id, O>, owner: map<Id, Id>)
    requires Listed(start, tags) && tags.Keys == owner.Keys
    ensures Refiling(start, start, tags, owner, {})
  {
  }

  /** With every tag refiled the index is right exactly when no list held a tag of another device. */
  lemma RefiledIff<O>(start: map<Id, seq<O>>, lists: map<Id, seq<O>>, tags: map<Id, O>, owner: map<Id, Id>)
    requires Distinctly(tags) && Listed(start, tags) && Refiling(start, lists, tags, owner, tags.Keys)
    ensures Groups(lists, tags, owner) <==> NoneMisfiled(start, tags, owner)
  {
    forall d, o | TagOf(o, d, tags, owner) ensures o in ListOf(lists, d) {
      var id :| id in tags && id in owner && tags[id] == o && owner[id] == d;
      assert FiledOnce(ListOf(lists, owner[id]), tags[id]);
    }
    if NoneMisfiled(start, tags, owner) {
      forall d, o | o in ListOf(lists, d) ensures TagOf(o, d, tags, owner) {
      }
      forall d | d in lists ensures NoDuplicates(lists[d]) {
        forall i, j | 0 <= i < j < |lists[d]| ensures lists[d][i] != lists[d][j] {
          assert lists[d][i] in ListOf(lists, d);
          var id :| id in tags && id in owner && tags[id] == lists[d][i] && owner[id] == d;
          assert FiledOnce(ListOf(lists, owner[id]), tags[id]);
          if lists[d][i] == lists[d][j] {
            OnceIsNotTwice(lists[d], i, j);
          }
        }
      }
    } else {
      var d, o :| o in ListOf(start, d) && !TagOf(o, d, tags, owner);
      assert o in ListOf(lists, d);
    }
  }
}
