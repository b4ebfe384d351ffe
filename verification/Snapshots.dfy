/** The objects a configuration snapshot is made of, and how a snapshot is cloned. */
module Snapshots {
  import opened Common
  import opened Uuids
  import opened DeviceIndex

  datatype Device = Device(
    id: Id, objectID: Option<string>, typeID: string, typeName: string, name: string, settings: seq<bv8>, updatedAt: int)

  datatype Tag = Tag(
    id: Id, deviceID: Id, name: string, dataType: string, unitSymbol: Option<string>, address: seq<bv8>,
    scaling: seq<Option<real>>, setpoints: seq<Option<real>>, updatedAt: int)

  /** What a snapshot says, without its index. A nil device entry is None; the zero time is 0. */
  datatype Config = Config(devices: map<Id, Option<Device>>, tags: map<Id, Tag>, loadedAt: int)

  const EMPTY_CONFIG := Config(map[], map[], 0)

  class DeviceSnapshot {
    var device: Device

    constructor (device: Device)
      ensures this.device == device
    {
      this.device := device;
    }
  }

  class TagSnapshot {
    var tag: Tag

    constructor (tag: Tag)
      ensures this.tag == tag
    {
      this.tag := tag;
    }
  }

  /** A Go map: an object that everyone holding it sees change. */
  class GoMap<V> {
    var entries: map<Id, V>

    constructor ()
      ensures entries == map[]
    {
      entries := map[];
    }
  }

  type DeviceMap = GoMap<DeviceSnapshot?>
  type TagMap = GoMap<TagSnapshot>
  type ListMap = GoMap<Slice>

  /** A Go slice with its backing array. */
  class Slice {
    var items: seq<TagSnapshot?>

    constructor ()
      ensures items == []
    {
      items := [];
    }
  }

  type Tags = map<Id, TagSnapshot>
  type Lists = map<Id, seq<TagSnapshot?>>

  function ItemsOf(list: Slice?): seq<TagSnapshot?>
    reads list
  {
    if list == null then [] else list.items
  }

  /** The slice under the id, nil when there is none. */
  function Find(lists: map<Id, Slice>, id: Id): Slice? {
    if id in lists then lists[id] else null
  }

  ghost function Items(lists: map<Id, Slice>): Lists
    reads lists.Values
  {
    map d | d in lists :: lists[d].items
  }

  lemma ItemsAre(lists: map<Id, Slice>)
    ensures Items(lists).Keys == lists.Keys
    ensures forall d :: d in lists ==> Items(lists)[d] == lists[d].items
  {
  }

  lemma ItemsFound(lists: map<Id, Slice>, d: Id)
    ensures ItemsOf(Find(lists, d)) == ListOf(Items(lists), d)
  {
  }

  method Assign(lists: ListMap, d: Id, list: Slice)
    modifies lists
    ensures lists.entries == old(lists.entries)[d := list]
    ensures Items(lists.entries) == old(Items(lists.entries))[d := list.items]
  {
    lists.entries := lists.entries[d := list];
  }

  method Delete(lists: ListMap, d: Id)
    modifies lists
    ensures lists.entries == old(lists.entries) - {d}
    ensures Items(lists.entries) == old(Items(lists.entries)) - {d}
  {
    lists.entries := lists.entries - {d};
  }

  class Snapshot {
    const devices: DeviceMap
    const tags: TagMap
    const tagsByDevice: ListMap
    const loadedAt: int

    /** Three new empty maps. */
    constructor (loadedAt: int)
      ensures this.loadedAt == loadedAt && fresh(Core())
      ensures devices.entries == map[] && tags.entries == map[] && tagsByDevice.entries == map[]
    {
      devices := new GoMap<DeviceSnapshot?>();
      tags := new GoMap<TagSnapshot>();
      tagsByDevice := new GoMap<Slice>();
      this.loadedAt := loadedAt;
    }

    /** The snapshot's own maps and slices. */
    ghost function Core(): set<object>
      reads tagsByDevice
    {
      {this, devices, tags, tagsByDevice} + tagsByDevice.entries.Values
    }

    /** Everything a reader can reach from here. */
    ghost function Reachable(): set<object>
      reads tagsByDevice, Core()
    {
      Core() + Parts(devices.entries, tags.entries, Lists())
    }

    ghost function Lists(): Lists
      reads tagsByDevice, Core()
    {
      Items(tagsByDevice.entries)
    }

    ghost function Contents(): Config
      reads tagsByDevice, Core(), Reachable()
    {
      Config(DeviceValues(devices.entries), TagValues(tags.entries), loadedAt)
    }

    /** Tags stand under their own ids, and the index is their grouping by device. */
    ghost predicate Indexed()
      reads tagsByDevice, Core(), Reachable()
    {
      Indexes(Lists(), tags.entries)
    }
  }

  ghost predicate Indexes(lists: Lists, tags: Tags)
    reads tags.Values
  {
    WellKeyed(TagValues(tags)) && Groups<TagSnapshot?>(lists, tags, Owners(TagValues(tags)))
  }

  ghost function Parts(devices: map<Id, DeviceSnapshot?>, tags: Tags, lists: Lists): set<object> {
    (set id | id in devices && devices[id] != null :: devices[id]) + tags.Values + Members(lists)
  }

  lemma PartsOf(devices: map<Id, DeviceSnapshot?>, tags: Tags, lists: Lists)
    ensures forall id :: id in devices && devices[id] != null ==> devices[id] in Parts(devices, tags, lists)
    ensures tags.Values <= Parts(devices, tags, lists) && Members(lists) <= Parts(devices, tags, lists)
  {
  }

  lemma PartsWithin(devices: map<Id, DeviceSnapshot?>, tags: Tags, lists: Lists, all: set<object>)
    requires forall id :: id in devices && devices[id] != null ==> devices[id] in all
    requires forall id :: id in tags ==> tags[id] in all
    requires Members(lists) <= all
    ensures Parts(devices, tags, lists) <= all
  {
  }

  ghost function Members(lists: Lists): set<TagSnapshot?> {
    set d, o: TagSnapshot? | d in lists && o in lists[d] && o != null :: o
  }

  ghost function DeviceOf(o: DeviceSnapshot?): Option<Device>
    reads o
  {
    if o == null then None else Some(o.device)
  }

  ghost function DeviceValues(devices: map<Id, DeviceSnapshot?>): map<Id, Option<Device>>
    reads devices.Values
  {
    map d | d in devices :: DeviceOf(devices[d])
  }

  ghost function TagValues(tags: Tags): map<Id, Tag>
    reads tags.Values
  {
    map id | id in tags :: tags[id].tag
  }

  function Owners(values: map<Id, Tag>): map<Id, Id> {
    map id | id in values :: values[id].deviceID
  }

  predicate WellKeyed(values: map<Id, Tag>) {
    forall id :: id in values ==> values[id].id == id
  }

  lemma WellKeyedDistinctly(tags: Tags)
    requires WellKeyed(TagValues(tags))
    ensures Distinctly<TagSnapshot?>(tags)
  {
    forall i, j | i in tags && j in tags && tags[i] == tags[j] ensures i == j {
      assert TagValues(tags)[i].id == i && TagValues(tags)[j].id == j;
    }
  }

  // ---- lists -------------------------------------------------------------------------------------------

  ghost function Entries(list: seq<TagSnapshot?>): set<TagSnapshot?> {
    set o | o in list && o != null
  }

  /** The list without the given objects, in its order. */
  ghost function Dropping(list: seq<TagSnapshot?>, gone: set<TagSnapshot?>): seq<TagSnapshot?> {
    if list == [] then []
    else
      var front, last := list[..|list| - 1], list[|list| - 1];
      Dropping(front, gone) + if last in gone then [] else [last]
  }

  lemma {:induction false} DroppingMembers(list: seq<TagSnapshot?>, gone: set<TagSnapshot?>)
    ensures forall o :: o in Dropping(list, gone) <==> o in list && o !in gone
  {
    if list != [] {
      var front, last := list[..|list| - 1], list[|list| - 1];
      DroppingMembers(front, gone);
      assert list == front + [last];
    }
  }

  lemma {:induction false} DroppingOne(list: seq<TagSnapshot?>, gone: set<TagSnapshot?>, o: TagSnapshot?)
    requires forall x :: x in list ==> (x in gone <==> x == o)
    ensures Dropping(list, gone) == Without(list, o)
  {
    if list != [] {
      var front, last := list[..|list| - 1], list[|list| - 1];
      assert list == front + [last];
      DroppingOne(front, gone, o);
    }
  }

  /** Nil, and the objects that carry the id. */
  ghost function Unwanted(list: seq<TagSnapshot?>, id: Id): set<TagSnapshot?>
    reads Entries(list)
  {
    set o | o in list && (o == null || o.tag.id == id)
  }

  /** A new slice without nil entries and entries of the given id; on a list of well-keyed tags that is dropping one object. */
  method RemoveTagByID(list: Slice?, id: Id) returns (filtered: Slice)
    ensures fresh(filtered)
    ensures filtered.items == old(Dropping(ItemsOf(list), Unwanted(ItemsOf(list), id)))
  {
    ghost var gone := Unwanted(ItemsOf(list), id);
    filtered := new Slice();
    if list == null {
      return;
    }
    var items := list.items;
    for n := 0 to |items|
      invariant list.items == items && filtered.items == Dropping(items[..n], gone)
      invariant Unwanted(items, id) == gone
    {
      var tagSnapshot := items[n];
      assert items[..n + 1][..n] == items[..n];
      assert tagSnapshot in items;
      if tagSnapshot == null || tagSnapshot.tag.id == id {
        continue;
      }
      filtered.items := filtered.items + [tagSnapshot];
    }
    assert items[..|items|] == items;
  }

  // ---- cloning --------------------------------------------------------------------------------------------

  method CloneDevices(devices: DeviceMap, cloned: DeviceMap)
    requires cloned != devices && cloned.entries == map[]
    modifies cloned
    ensures forall d :: d in cloned.entries && cloned.entries[d] != null ==> fresh(cloned.entries[d])
    ensures DeviceValues(cloned.entries) == old(DeviceValues(devices.entries))
  {
    hide ToSet, NoDuplicates, DeviceValues;
    ghost var done: map<Id, DeviceSnapshot?> := map[];
    ghost var source := devices.entries;
    var keys := Enumerate(devices.entries.Keys);
    ToSetEnds(keys);
    for n := 0 to |keys|
      invariant devices.entries == source && cloned.entries == done
      invariant done.Keys == ToSet(keys[..n]) && done.Keys <= source.Keys
      invariant forall d :: d in done && done[d] != null ==> fresh(done[d])
      invariant forall d :: d in done ==> DeviceOf(done[d]) == DeviceOf(source[d])
    {
      var key := keys[n];
      ToSetPrefix(keys, n);
      assert key in source;
      var copy := CloneDevice(devices.entries[key]);
      cloned.entries := cloned.entries[key := copy];
      done := done[key := copy];
    }
    DeviceValuesAre(done);
    DeviceValuesAre(source);
    assert DeviceValues(done) == DeviceValues(source);
  }

  lemma DeviceValuesAre(devices: map<Id, DeviceSnapshot?>)
    ensures DeviceValues(devices).Keys == devices.Keys
    ensures forall d :: d in devices ==> DeviceValues(devices)[d] == DeviceOf(devices[d])
  {
  }

  method CloneDevice(o: DeviceSnapshot?) returns (copy: DeviceSnapshot?)
    ensures copy == null <==> o == null
    ensures copy != null ==> fresh(copy)
    ensures DeviceOf(copy) == DeviceOf(o)
  {
    if o == null {
      return null;
    }
    copy := new DeviceSnapshot(o.device);
  }

  method CloneTags(tags: TagMap, cloned: TagMap)
    requires cloned != tags && cloned.entries == map[]
    modifies cloned
    ensures forall id :: id in cloned.entries ==> fresh(cloned.entries[id])
    ensures TagValues(cloned.entries) == old(TagValues(tags.entries))
  {
    hide ToSet, NoDuplicates, TagValues;
    ghost var done: Tags := map[];
    ghost var source := tags.entries;
    var keys := Enumerate(tags.entries.Keys);
    ToSetEnds(keys);
    for n := 0 to |keys|
      invariant tags.entries == source && cloned.entries == done
      invariant done.Keys == ToSet(keys[..n]) && done.Keys <= source.Keys
      invariant forall id :: id in done ==> fresh(done[id]) && done[id].tag == source[id].tag
    {
      var key := keys[n];
      ToSetPrefix(keys, n);
      assert key in source;
      var copy := new TagSnapshot(tags.entries[key].tag);
      cloned.entries := cloned.entries[key := copy];
      done := done[key := copy];
    }
    TagValuesAre(done);
    TagValuesAre(source);
    assert TagValues(done) == TagValues(source);
  }

  lemma TagValuesAre(tags: Tags)
    ensures TagValues(tags).Keys == tags.Keys
    ensures forall id :: id in tags ==> TagValues(tags)[id] == tags[id].tag
  {
  }

  /** The tags of `all` that are not among `tags` are copies of listed ones, each under its own id. */
  ghost predicate Extends(all: Tags, tags: Tags, list: set<TagSnapshot?>)
    reads all.Values, list
  {
    && (forall id :: id in tags ==> id in all && all[id] == tags[id])
    && (forall id :: id in all && id !in tags ==> exists e :: e in list && e != null && e.tag.id == id && e.tag == all[id].tag)
  }

  lemma ExtendsMore(more: Tags, all: Tags, tags: Tags, some: set<TagSnapshot?>, list: set<TagSnapshot?>)
    requires Extends(more, all, some) && Extends(all, tags, list) && some <= list
    ensures Extends(more, tags, list)
  {
  }

  /** Each entry has become the clone that stands under its id. */
  ghost predicate Cloned(list: seq<TagSnapshot?>, all: Tags, cloned: seq<TagSnapshot?>)
    reads Entries(list)
  {
    && (forall e: TagSnapshot? :: e in Entries(list) ==> e.tag.id in all && all[e.tag.id] in cloned)
    && (forall o: TagSnapshot? :: o in cloned ==> exists e: TagSnapshot? :: e in Entries(list) && e.tag.id in all && o == all[e.tag.id])
  }

  lemma ClonedMore(list: seq<TagSnapshot?>, all: Tags, cloned: seq<TagSnapshot?>, more: Tags)
    requires Cloned(list, all, cloned) && forall id :: id in all ==> id in more && more[id] == all[id]
    ensures Cloned(list, more, cloned)
  {
  }

  lemma ClonedSnoc(list: seq<TagSnapshot?>, e: TagSnapshot?, all: Tags, cloned: seq<TagSnapshot?>)
    requires Cloned(list, all, cloned) && (e != null ==> e.tag.id in all)
    ensures Cloned(list + [e], all, cloned + if e == null then [] else [all[e.tag.id]])
  {
  }

  /** One list into a new slice: each entry becomes the clone under its id, made now if there is none. */
  method CloneList(list: Slice, tags: TagMap) returns (cloned: Slice)
    modifies tags
    ensures fresh(cloned) && list.items == old(list.items)
    ensures Extends(tags.entries, old(tags.entries), Entries(list.items))
    ensures forall id :: id in tags.entries && id !in old(tags.entries) ==> fresh(tags.entries[id])
    ensures Cloned(list.items, tags.entries, cloned.items)
  {
    hide Cloned, Extends;
    cloned := new Slice();
    var items := list.items;
    ghost var before, all := tags.entries, tags.entries;
    ghost var done: seq<TagSnapshot?> := [];
    EmptyCloned(before, Entries(items));
    for n := 0 to |items|
      invariant tags.entries == all && list.items == items && cloned.items == done
      invariant Extends(all, before, Entries(items))
      invariant forall id :: id in all && id !in before ==> fresh(all[id])
      invariant Cloned(items[..n], all, done)
    {
      var e := items[n];
      assert items[..n + 1] == items[..n] + [e];
      assert forall o :: o in Entries(items[..n]) || o in Entries(items) ==> o in items;
      if e == null {
        ClonedSnoc(items[..n], e, all, done);
        assert done + [] == done;
        continue;
      }
      assert e in items && e in Entries(items);
      if e.tag.id !in tags.entries {
        var copy := new TagSnapshot(e.tag);
        assert Cloned(items[..n], all, done) && Extends(all, before, Entries(items));
        tags.entries := tags.entries[e.tag.id := copy];
        assert Cloned(items[..n], all, done) && Extends(all, before, Entries(items));
        ghost var more := all[e.tag.id := copy];
        ClonedMore(items[..n], all, done, more);
        ExtendsNew(all, before, Entries(items), e, copy);
        all := more;
      }
      var clone: TagSnapshot? := tags.entries[e.tag.id];
      cloned.items := cloned.items + [clone];
      ClonedSnoc(items[..n], e, all, done);
      done := done + [all[e.tag.id]];
    }
    assert items[..|items|] == items;
  }

  lemma EmptyCloned(tags: Tags, list: set<TagSnapshot?>)
    ensures Cloned([], tags, []) && Extends(tags, tags, list)
  {
  }

  lemma ExtendsNew(all: Tags, tags: Tags, list: set<TagSnapshot?>, e: TagSnapshot, copy: TagSnapshot)
    requires Extends(all, tags, list) && e in list && e.tag.id !in all && copy.tag == e.tag
    ensures Extends(all[e.tag.id := copy], tags, list)
  {
  }

  ghost predicate ListsCloned(lists: Lists, ds: set<Id>, all: Tags, cloned: Lists)
    reads Members(lists)
  {
    && (forall d :: d in cloned ==> d in ds && cloned[d] != [])
    && (forall d :: d in ds ==> d in lists && Cloned(lists[d], all, ListOf(cloned, d)))
  }

  lemma ListClonedToo(lists: Lists, ds: set<Id>, all: Tags, cloned: Lists, d: Id, more: Tags, list: seq<TagSnapshot?>)
    requires ListsCloned(lists, ds, all, cloned) && d in lists && d !in ds
    requires forall id :: id in all ==> id in more && more[id] == all[id]
    requires Cloned(lists[d], more, list)
    ensures ListsCloned(lists, ds + {d}, more, if list == [] then cloned else cloned[d := list])
  {
  }

  method CloneLists(lists: ListMap, tags: TagMap, cloned: ListMap)
    requires cloned != lists && cloned.entries == map[]
    modifies tags, cloned
    ensures Extends(tags.entries, old(tags.entries), Members(old(Items(lists.entries))))
    ensures forall id :: id in tags.entries && id !in old(tags.entries) ==> fresh(tags.entries[id])
    ensures forall d :: d in cloned.entries ==> fresh(cloned.entries[d])
    ensures ListsCloned(old(Items(lists.entries)), old(lists.entries.Keys), tags.entries, Items(cloned.entries))
  {
    hide Extends, Cloned, ListsCloned, Items, ToSet, NoDuplicates;
    ghost var source, before, all, done := Items(lists.entries), tags.entries, tags.entries, Items(cloned.entries);
    var keys := Enumerate(lists.entries.Keys);
    ToSetEnds(keys);
    NoListsCloned(source, before);
    ItemsAre(lists.entries);
    ItemsAre(cloned.entries);
    assert done == map[];
    for n := 0 to |keys|
      invariant lists.entries == old(lists.entries) && Items(lists.entries) == source
      invariant tags.entries == all && Items(cloned.entries) == done
      invariant Extends(all, before, Members(source))
      invariant forall id :: id in all && id !in before ==> fresh(all[id])
      invariant forall d :: d in cloned.entries ==> fresh(cloned.entries[d])
      invariant ListsCloned(source, ToSet(keys[..n]), all, done)
    {
      var key := keys[n];
      ToSetPrefix(keys, n);
      ItemsAre(lists.entries);
      assert key in lists.entries && source[key] == lists.entries[key].items;
      var list := CloneList(lists.entries[key], tags);
      ghost var more := tags.entries;
      assert Items(lists.entries) == source && Items(cloned.entries) == done;
      ExtendsKeeps(more, all, Entries(source[key]));
      ListClonedToo(source, ToSet(keys[..n]), all, done, key, more, list.items);
      ExtendsMore(more, all, before, Entries(source[key]), Members(source));
      all := more;
      if |list.items| == 0 {
        continue;
      }
      assert forall o: object :: o in lists.entries.Values ==> o != cloned && allocated(o);
      Assign(cloned, key, list);
      assert Items(lists.entries) == source;
      done := done[key := list.items];
    }
  }

  lemma NoListsCloned(lists: Lists, tags: Tags)
    ensures ListsCloned(lists, {}, tags, map[]) && Extends(tags, tags, Members(lists))
  {
  }

  lemma ExtendsKeeps(more: Tags, all: Tags, list: set<TagSnapshot?>)
    requires Extends(more, all, list)
    ensures forall id :: id in all ==> id in more && more[id] == all[id]
  {
  }

  /** The list of the tag's device becomes a new one: without the tag's id, then the tag. */
  method UpsertTagToSlice(lists: ListMap, o: TagSnapshot)
    modifies lists
    ensures var d := o.tag.deviceID;
      && d in lists.entries && fresh(lists.entries[d]) && lists.entries == old(lists.entries)[d := lists.entries[d]]
      && Items(lists.entries) == old(Upserted(Items(lists.entries), o))
  {
    hide Items, Dropping, Unwanted, ItemsOf, ListOf, Find;
    var d := o.tag.deviceID;
    ItemsFound(lists.entries, d);
    ghost var before := Items(lists.entries);
    ghost var kept := Dropping(ListOf(before, d), Unwanted(ListOf(before, d), o.tag.id));
    var list := RemoveTagByID(Find(lists.entries, d), o.tag.id);
    assert list.items == kept;
    var last: TagSnapshot? := o;
    list.items := list.items + [last];
    assert forall s: object :: s in lists.entries.Values ==> s != list && allocated(s);
    assert Items(lists.entries) == before;
    Assign(lists, d, list);
    assert Items(lists.entries) == before[d := kept + [last]];
  }

  ghost function Upserted(lists: Lists, o: TagSnapshot): Lists
    reads o, Entries(ListOf(lists, o.tag.deviceID))
  {
    var list: seq<TagSnapshot?> := ListOf(lists, o.tag.deviceID);
    lists[o.tag.deviceID := Dropping(list, Unwanted(list, o.tag.id)) + [o]]
  }

  /** Takes each tag out of its device's list, wherever it stands, and puts it at the end of a new one. */
  method RefileAll(lists: ListMap, tags: TagMap)
    modifies lists
    ensures old(WellKeyed(TagValues(tags.entries)) && Listed<TagSnapshot?>(Items(lists.entries), tags.entries)) ==>
      Refiling<TagSnapshot?>(old(Items(lists.entries)), Items(lists.entries), tags.entries, Owners(TagValues(tags.entries)),
                             tags.entries.Keys)
    ensures Within(Items(lists.entries), old(Items(lists.entries)), tags.entries)
    ensures OnlyNewLists(old(lists.entries), lists.entries)
  {
    hide Refiling, Listed, Within, Items, ToSet, NoDuplicates, Upserted, TagValues, Owners, WellKeyed;
    ghost var start, all, values := Items(lists.entries), tags.entries, TagValues(tags.entries);
    ghost var owner, filed := Owners(values), start;
    WithinStart(start, all);
    ghost var good := WellKeyed(values) && Listed<TagSnapshot?>(start, all);
    OwnersAre(all);
    if good {
      RefilingStarts<TagSnapshot?>(start, all, owner);
    }
    var keys := Enumerate(tags.entries.Keys);
    ToSetEnds(keys);
    for n := 0 to |keys|
      invariant tags.entries == all && TagValues(all) == values && Items(lists.entries) == filed
      invariant OnlyNewLists(old(lists.entries), lists.entries)
      invariant Within(filed, start, all)
      invariant good ==> Refiling<TagSnapshot?>(start, filed, all, owner, ToSet(keys[..n]))
    {
      var key := keys[n];
      ToSetPrefix(keys, n);
      assert key in tags.entries;
      if good {
        RefilesUpserted(start, filed, all, ToSet(keys[..n]), key);
      }
      WithinUpserted(filed, start, all, key);
      filed := Upserted(filed, all[key]);
      UpsertTagToSlice(lists, tags.entries[key]);
    }
  }

  lemma RefilesUpserted(start: Lists, filed: Lists, all: Tags, done: set<Id>, key: Id)
    requires WellKeyed(TagValues(all)) && Listed<TagSnapshot?>(start, all) && key in all && key !in done
    requires Refiling<TagSnapshot?>(start, filed, all, Owners(TagValues(all)), done)
    ensures Refiling<TagSnapshot?>(start, Upserted(filed, all[key]), all, Owners(TagValues(all)), done + {key})
  {
    hide Refiling, Listed, Without, Dropping, Unwanted, Distinctly, WellKeyed;
    var owner := Owners(TagValues(all));
    OwnersAre(all);
    RefilingListed<TagSnapshot?>(start, filed, all, owner, done);
    KeyedById(all, key);
    ById(ListOf(filed, owner[key]), all, key);
    WellKeyedDistinctly(all);
    RefilesOne<TagSnapshot?>(start, filed, all, owner, done, key);
  }

  /** Every list was there before or is new. */
  twostate predicate OnlyNewLists(before: map<Id, Slice>, new after: map<Id, Slice>) {
    forall d :: d in after ==> (d in before && after[d] == before[d]) || fresh(after[d])
  }

  lemma OwnersAre(tags: Tags)
    ensures TagValues(tags).Keys == tags.Keys == Owners(TagValues(tags)).Keys
    ensures forall id :: id in tags ==> Owners(TagValues(tags))[id] == tags[id].tag.deviceID
  {
  }

  lemma KeyedById(tags: Tags, id: Id)
    requires WellKeyed(TagValues(tags)) && id in tags
    ensures tags[id].tag.id == id
  {
    assert TagValues(tags)[id].id == id;
  }

  /** Nothing is in the index that was not a tag or in the lists it was made from. */
  ghost predicate Within(filed: Lists, lists: Lists, tags: Tags) {
    forall d, o: TagSnapshot? :: o in ListOf(filed, d) ==> o in tags.Values || o in ListOf(lists, d)
  }

  lemma WithinStart(lists: Lists, tags: Tags)
    ensures Within(lists, lists, tags)
  {
  }

  lemma WithinUpserted(filed: Lists, lists: Lists, tags: Tags, id: Id)
    requires Within(filed, lists, tags) && id in tags
    ensures Within(Upserted(filed, tags[id]), lists, tags)
  {
    var d := tags[id].tag.deviceID;
    var list: seq<TagSnapshot?> := ListOf(filed, d);
    hide Dropping, Unwanted;
    DroppingMembers(list, Unwanted(list, tags[id].tag.id));
    forall e, o: TagSnapshot? | o in ListOf(Upserted(filed, tags[id]), e)
      ensures o in tags.Values || o in ListOf(lists, e)
    {
      assert o in ListOf(filed, e) || (e == d && o == tags[id]);
    }
  }

  /** Among well-keyed tags an entry has an id exactly when it is the object under that id. */
  lemma ById(list: seq<TagSnapshot?>, tags: Tags, id: Id)
    requires WellKeyed(TagValues(tags)) && id in tags && forall o: TagSnapshot? :: o in list ==> o in tags.Values
    ensures Dropping(list, Unwanted(list, id)) == Without(list, tags[id])
  {
    forall x: TagSnapshot? | x in list ensures x != null && (x.tag.id == id <==> x == tags[id]) {
      var k :| k in tags && tags[k] == x;
      assert TagValues(tags)[k].id == k && TagValues(tags)[id].id == id;
    }
    DroppingOne(list, Unwanted(list, id), tags[id]);
  }

  /** The values of the entries of each list. */
  ghost function Listing(lists: Lists): map<Id, set<Tag>>
    reads Members(lists)
  {
    map d | d in lists :: set e: TagSnapshot? | e in lists[d] && e != null :: e.tag
  }

  /** Every listed entry is filed under the device of the tag that its id stands for. */
  ghost predicate ListsAreFiled(listing: map<Id, set<Tag>>, values: map<Id, Tag>) {
    forall d, v :: d in listing && v in listing[d] ==> v.id in values && values[v.id].deviceID == d
  }

  /** The tags of a copy: those of the original, and those found only in its lists. */
  ghost predicate KeepsTags(values: map<Id, Tag>, listing: map<Id, set<Tag>>, all: map<Id, Tag>) {
    && (forall id :: id in values ==> id in all && all[id] == values[id])
    && (forall id :: id in all && id !in values ==> exists d :: d in listing && all[id] in listing[d] && all[id].id == id)
  }

  lemma ClonedAreListed(lists: Lists, all: Tags, cloned: Lists)
    requires ListsCloned(lists, lists.Keys, all, cloned)
    ensures Listed<TagSnapshot?>(cloned, all)
  {
  }

  lemma MisfiledIff(lists: Lists, all: Tags, cloned: Lists)
    requires ListsCloned(lists, lists.Keys, all, cloned) && WellKeyed(TagValues(all))
    ensures NoneMisfiled<TagSnapshot?>(cloned, all, Owners(TagValues(all))) <==> ListsAreFiled(Listing(lists), TagValues(all))
  {
    if NoneMisfiled<TagSnapshot?>(cloned, all, Owners(TagValues(all))) {
      forall d, v | d in Listing(lists) && v in Listing(lists)[d]
        ensures v.id in all && all[v.id].tag.deviceID == d
      {
        var e: TagSnapshot? :| e in lists[d] && e != null && e.tag == v;
        assert Cloned(lists[d], all, ListOf(cloned, d)) && e in Entries(lists[d]);
        assert TagOf<TagSnapshot?>(all[e.tag.id], d, all, Owners(TagValues(all)));
      }
    }
    if ListsAreFiled(Listing(lists), TagValues(all)) {
      forall d, o: TagSnapshot? | o in ListOf(cloned, d) ensures TagOf<TagSnapshot?>(o, d, all, Owners(TagValues(all))) {
        assert Cloned(lists[d], all, ListOf(cloned, d));
        var e: TagSnapshot? :| e in Entries(lists[d]) && e.tag.id in all && o == all[e.tag.id];
        assert e.tag in Listing(lists)[d];
        assert Owners(TagValues(all))[e.tag.id] == d;
      }
    }
  }

  lemma IndexedIsTidy(lists: Lists, tags: Tags)
    requires Indexes(lists, tags)
    ensures Tidy(TagValues(tags), Listing(lists))
  {
    forall d, v | d in Listing(lists) && v in Listing(lists)[d]
      ensures v.id in tags && tags[v.id].tag == v && v.deviceID == d
    {
      var e: TagSnapshot? :| e in lists[d] && e != null && e.tag == v;
      assert e in ListOf(lists, d);
      assert TagOf<TagSnapshot?>(e, d, tags, Owners(TagValues(tags)));
    }
  }

  /** The tag objects and the index of a copy, from copies of the tags and then of the lists, into the copy's empty maps. */
  method CloneIndex(tags: TagMap, lists: ListMap, copies: TagMap, filed: ListMap)
    requires copies != tags && filed != lists && copies.entries == map[] && filed.entries == map[]
    modifies copies, filed
    ensures forall id :: id in copies.entries ==> fresh(copies.entries[id])
    ensures forall d :: d in filed.entries ==> fresh(filed.entries[d])
    ensures Members(Items(filed.entries)) <= copies.entries.Values
    ensures KeepsTags(old(TagValues(tags.entries)), old(Listing(Items(lists.entries))), TagValues(copies.entries))
    ensures old(WellKeyed(TagValues(tags.entries))) ==> WellKeyed(TagValues(copies.entries))
    ensures old(WellKeyed(TagValues(tags.entries))) ==>
      (Groups<TagSnapshot?>(Items(filed.entries), copies.entries, Owners(TagValues(copies.entries)))
       <==> ListsAreFiled(old(Listing(Items(lists.entries))), TagValues(copies.entries)))
    ensures old(Indexes(Items(lists.entries), tags.entries)) ==>
      TagValues(copies.entries) == old(TagValues(tags.entries)) && Indexes(Items(filed.entries), copies.entries)
  {
    hide Groups, ListsCloned, Refiling, Listed, NoneMisfiled, Distinctly, ListsAreFiled, Extends, WellKeyed, KeepsTags, Within, Items,
      TagValues, Listing, Owners, Indexes;
    ghost var source, originals, values := Items(lists.entries), tags.entries, TagValues(tags.entries);
    ghost var listing, indexed := Listing(source), Indexes(source, originals);
    ItemsAre(lists.entries);
    SourceApart(source, lists.entries, originals, copies, filed);
    CloneTags(tags, copies);
    ghost var first := copies.entries;
    SourceApart(source, lists.entries, originals, copies, filed);
    assert Items(lists.entries) == source && TagValues(originals) == values && Listing(source) == listing;
    CloneLists(lists, copies, filed);
    ghost var all, cloned := copies.entries, Items(filed.entries);
    assert TagValues(first) == values && TagValues(originals) == values && Listing(source) == listing;
    ghost var copied := TagValues(all);
    CopyFacts(originals, source, first, all, cloned);
    ExtendsKeeps(all, first, Members(source));
    assert indexed ==> Indexes(source, originals);
    assert forall o: object :: o in all.Values ==> o != filed && allocated(o);
    RefileAll(filed, copies);
    assert TagValues(all) == copied;
    ghost var refiled := Items(filed.entries);
    FiledAreFresh(cloned, all, refiled);
    if WellKeyed(values) {
      RefiledIff<TagSnapshot?>(cloned, refiled, all, Owners(copied));
      IndexesAre(refiled, all);
    }
  }

  lemma IndexesAre(lists: Lists, tags: Tags)
    ensures Indexes(lists, tags) <==> WellKeyed(TagValues(tags)) && Groups<TagSnapshot?>(lists, tags, Owners(TagValues(tags)))
  {
  }

  lemma SourceApart(source: Lists, lists: map<Id, Slice>, tags: Tags, copies: TagMap, filed: ListMap)
    ensures forall o: object :: o in tags.Values || o in lists.Values || o in Members(source) ==>
      o != copies && o != filed && allocated(o)
  {
  }

  /** What the two copying loops have made, before the lists are put in order. */
  lemma CopyFacts(originals: Tags, source: Lists, first: Tags, all: Tags, cloned: Lists)
    requires TagValues(first) == TagValues(originals) && Extends(all, first, Members(source))
    requires ListsCloned(source, source.Keys, all, cloned)
    ensures Listed<TagSnapshot?>(cloned, all)
    ensures KeepsTags(TagValues(originals), Listing(source), TagValues(all))
    ensures Indexes(source, originals) ==>
      TagValues(all) == TagValues(originals) && ListsAreFiled(Listing(source), TagValues(all)) && WellKeyed(TagValues(originals))
    ensures WellKeyed(TagValues(originals)) ==>
      && WellKeyed(TagValues(all)) && Distinctly<TagSnapshot?>(all)
      && (NoneMisfiled<TagSnapshot?>(cloned, all, Owners(TagValues(all))) <==> ListsAreFiled(Listing(source), TagValues(all)))
  {
    hide Groups, ListsCloned, Listed, NoneMisfiled, Distinctly, ListsAreFiled, Extends, WellKeyed, KeepsTags, TagValues, Listing, Owners;
    ClonedAreListed(source, all, cloned);
    CopiesKeepTags(originals, source, first, all);
    if Indexes(source, originals) {
      IndexedIsTidy(source, originals);
      TidyKeepsTags(TagValues(originals), Listing(source), TagValues(all));
    }
    if WellKeyed(TagValues(originals)) {
      WellKeyedDistinctly(all);
      MisfiledIff(source, all, cloned);
    }
  }

  lemma CopiesKeepTags(tags: Tags, lists: Lists, copies: Tags, all: Tags)
    requires TagValues(copies) == TagValues(tags)
    requires Extends(all, copies, Members(lists))
    ensures KeepsTags(TagValues(tags), Listing(lists), TagValues(all))
    ensures WellKeyed(TagValues(tags)) ==> WellKeyed(TagValues(all))
  {
    var values := TagValues(all);
    TagValuesAre(copies);
    TagValuesAre(tags);
    forall id | id in all && id !in tags
      ensures exists d :: d in Listing(lists) && values[id] in Listing(lists)[d] && values[id].id == id
    {
      var e: TagSnapshot? :| e in Members(lists) && e != null && e.tag.id == id && e.tag == all[id].tag;
      var d :| d in lists && e in lists[d];
      assert e.tag in Listing(lists)[d];
    }
  }

  /** Every listed value is that of the tag under its id, which is of that device. */
  ghost predicate Tidy(values: map<Id, Tag>, listing: map<Id, set<Tag>>) {
    && WellKeyed(values)
    && forall d, v :: d in listing && v in listing[d] ==> v.id in values && values[v.id] == v && v.deviceID == d
  }

  /** A copy of a tidy snapshot gains no tag from the lists, and the lists are in order. */
  lemma TidyKeepsTags(values: map<Id, Tag>, listing: map<Id, set<Tag>>, all: map<Id, Tag>)
    requires Tidy(values, listing) && KeepsTags(values, listing, all)
    ensures all == values && ListsAreFiled(listing, all)
  {
  }

  /** A deep copy, maps and slices included. Its index is right exactly when the original's lists are filed under the devices of the
    * tags they name. */
  method CloneSnapshot(s: Snapshot?) returns (c: Snapshot)
    ensures fresh(c) && fresh(c.Reachable())
    ensures s == null ==> c.Contents() == EMPTY_CONFIG && c.Indexed()
    ensures s != null ==>
      && c.Contents().devices == old(s.Contents()).devices && c.loadedAt == s.loadedAt
      && KeepsTags(old(s.Contents()).tags, old(Listing(s.Lists())), c.Contents().tags)
    ensures s != null && old(WellKeyed(s.Contents().tags)) ==>
      (c.Indexed() <==> ListsAreFiled(old(Listing(s.Lists())), c.Contents().tags))
    ensures s != null && old(s.Indexed()) ==> c.Indexed() && c.Contents() == old(s.Contents())
  {
    hide Groups, ListsAreFiled, WellKeyed, KeepsTags, Listing, TagValues, DeviceValues, Items, Indexes;
    if s == null {
      c := EmptySnapshot();
      return;
    }
    ghost var config, lists, indexed := s.Contents(), s.Lists(), s.Indexed();
    ghost var listing := Listing(lists);
    MembersAllocated(lists);
    c := new Snapshot(s.loadedAt);
    assert s.Contents() == config && s.Lists() == lists && Listing(lists) == listing && (indexed ==> s.Indexed());
    CloneIndex(s.tags, s.tagsByDevice, c.tags, c.tagsByDevice);
    ghost var filed, all := c.Lists(), TagValues(c.tags.entries);
    IndexesAre(filed, c.tags.entries);
    assert DeviceValues(s.devices.entries) == config.devices;
    CloneDevices(s.devices, c.devices);
    assert c.Lists() == filed && TagValues(c.tags.entries) == all;
    IndexesAre(filed, c.tags.entries);
  }

  lemma MembersAllocated(lists: Lists)
    ensures forall o :: o in Members(lists) ==> allocated(o)
  {
  }

  method EmptySnapshot() returns (c: Snapshot)
    ensures fresh(c) && fresh(c.Reachable()) && c.Contents() == EMPTY_CONFIG && c.Indexed()
  {
    c := new Snapshot(0);
    NothingToGroup();
    assert c.Lists() == map[];
  }

  lemma NothingToGroup()
    ensures Indexes(map[], map[]) && TagValues(map[]) == map[] && DeviceValues(map[]) == map[]
  {
  }

  lemma FiledAreFresh(lists: Lists, all: Tags, filed: Lists)
    requires Listed<TagSnapshot?>(lists, all)
    requires Within(filed, lists, all)
    ensures Members(filed) <= all.Values
  {
    forall o | o in Members(filed) ensures o in all.Values {
      var d :| d in filed && o in filed[d];
      assert o in ListOf(filed, d);
    }
  }

  // ---- one tag in and out of the index -------------------------------------------------------------------

  /** Takes an id out of a device's list, and the list with it when it was the last. */
  ghost function WithoutID(lists: Lists, d: Id, id: Id): Lists
    reads Entries(ListOf(lists, d))
  {
    var list: seq<TagSnapshot?> := ListOf(lists, d);
    var rest := Dropping(list, Unwanted(list, id));
    if rest == [] then lists - {d} else lists[d := rest]
  }

  method UnfileTag(lists: ListMap, d: Id, id: Id)
    modifies lists
    ensures Items(lists.entries) == old(WithoutID(Items(lists.entries), d, id))
    ensures OnlyNewLists(old(lists.entries), lists.entries)
  {
    hide Items, Dropping, Unwanted;
    ghost var before := Items(lists.entries);
    ghost var rest := Dropping(ListOf(before, d), Unwanted(ListOf(before, d), id));
    ItemsFound(lists.entries, d);
    var remaining := RemoveTagByID(Find(lists.entries, d), id);
    assert forall s: object :: s in lists.entries.Values ==> s != remaining && allocated(s);
    assert Items(lists.entries) == before;
    Assign(lists, d, remaining);
    if |remaining.items| == 0 {
      Delete(lists, d);
      assert Items(lists.entries) == before - {d};
    }
  }

  lemma WithoutIDIndexes(lists: Lists, tags: Tags, id: Id)
    requires Indexes(lists, tags) && id in tags
    ensures Indexes(WithoutID(lists, tags[id].tag.deviceID, id), tags - {id})
  {
    hide Groups, Distinctly, WellKeyed, Dropping, Unwanted;
    var d := tags[id].tag.deviceID;
    GroupsAreTags(lists, tags);
    ById(ListOf(lists, d), tags, id);
    WellKeyedDistinctly(tags);
    UnfiledGroups<TagSnapshot?>(lists, tags, Owners(TagValues(tags)), id);
    WithoutTag(tags, id);
  }

  lemma WithoutIDMembers(lists: Lists, d: Id, id: Id)
    ensures Members(WithoutID(lists, d, id)) <= Members(lists)
  {
    var list: seq<TagSnapshot?> := ListOf(lists, d);
    var rest := WithoutID(lists, d, id);
    DroppingMembers(list, Unwanted(list, id));
    hide Dropping, Unwanted;
    forall o | o in Members(rest) ensures o in Members(lists) {
      var e :| e in rest && o in rest[e];
      assert o in ListOf(lists, e);
    }
  }

  lemma GroupsAreTags(lists: Lists, tags: Tags)
    requires Groups<TagSnapshot?>(lists, tags, Owners(TagValues(tags)))
    ensures forall d, o: TagSnapshot? :: o in ListOf(lists, d) ==> o in tags.Values
  {
  }

  lemma WithoutTag(tags: Tags, id: Id)
    ensures (tags - {id}).Values <= tags.Values
    ensures TagValues(tags - {id}) == TagValues(tags) - {id}
    ensures Owners(TagValues(tags - {id})) == Owners(TagValues(tags)) - {id}
    ensures WellKeyed(TagValues(tags)) ==> WellKeyed(TagValues(tags - {id}))
  {
  }

  lemma WithTag(tags: Tags, o: TagSnapshot)
    ensures var all := tags[o.tag.id := o];
      && TagValues(all) == TagValues(tags)[o.tag.id := o.tag]
      && Owners(TagValues(all)) == Owners(TagValues(tags))[o.tag.id := o.tag.deviceID]
      && (WellKeyed(TagValues(tags)) ==> WellKeyed(TagValues(all)))
  {
  }

  /** A tag object of a new id is put at the end of its device's list. */
  lemma UpsertedIndexes(lists: Lists, tags: Tags, copy: TagSnapshot)
    requires Indexes(lists, tags) && copy !in tags.Values && copy.tag.id !in tags
    ensures Indexes(Upserted(lists, copy), tags[copy.tag.id := copy])
  {
    hide Groups, Distinctly, WellKeyed, Dropping, Unwanted;
    var id, d := copy.tag.id, copy.tag.deviceID;
    GroupsAreTags(lists, tags);
    NotById(ListOf(lists, d), tags, id);
    WellKeyedDistinctly(tags);
    FiledGroups<TagSnapshot?>(lists, tags, Owners(TagValues(tags)), id, d, copy);
    WithTag(tags, copy);
  }

  lemma UpsertedMembers(lists: Lists, o: TagSnapshot)
    ensures Members(Upserted(lists, o)) <= Members(lists) + {o}
  {
    var d, id := o.tag.deviceID, o.tag.id;
    var list: seq<TagSnapshot?> := ListOf(lists, d);
    var all := Upserted(lists, o);
    DroppingMembers(list, Unwanted(list, id));
    hide Dropping, Unwanted;
    forall x | x in Members(all) ensures x in Members(lists) + {o} {
      var e :| e in all && x in all[e];
      assert x in ListOf(lists, e) || x == o;
    }
  }

  lemma NothingUnwanted(list: seq<TagSnapshot?>, gone: set<TagSnapshot?>)
    requires forall o :: o in list ==> o !in gone
    ensures Dropping(list, gone) == list
  {
    if list != [] {
      var front, last := list[..|list| - 1], list[|list| - 1];
      assert list == front + [last];
      NothingUnwanted(front, gone);
    }
  }

  lemma NotById(list: seq<TagSnapshot?>, tags: Tags, id: Id)
    requires WellKeyed(TagValues(tags)) && id !in tags && forall o: TagSnapshot? :: o in list ==> o in tags.Values
    ensures Dropping(list, Unwanted(list, id)) == list
  {
    forall x: TagSnapshot? | x in list ensures x != null && x.tag.id != id {
      var k :| k in tags && tags[k] == x;
      assert TagValues(tags)[k].id == k;
    }
    NothingUnwanted(list, Unwanted(list, id));
  }
}
