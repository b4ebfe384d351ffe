/** The scheduler's own map of workers, and how it reads the store's index. */
module Scheduler {
  import opened Common
  import opened Uuids
  import opened DeviceIndex
  import opened Snapshots
  import opened SnapshotStore
  import opened SchedulerModel

  /** A worker's handle: whether its context has been cancelled. */
  class DeviceWorker {
    var cancelled: bool

    constructor ()
      ensures !cancelled
    {
      cancelled := false;
    }
  }

  class Scheduler {
    const store: SnapshotStore
    var workers: map<Id, DeviceWorker>

    constructor (store: SnapshotStore)
      ensures this.store == store && workers == map[]
    {
      this.store, workers := store, map[];
    }

    method RunningDeviceIDs() returns (ids: seq<Id>)
      ensures NoDuplicates(ids) && ToSet(ids) == workers.Keys
    {
      ids := Enumerate(workers.Keys);
    }

    /** The devices with a non-empty list in the index: exactly those that are known and have tags. */
    method DesiredDeviceIDs() returns (ids: seq<Id>)
      requires store.Valid()
      ensures NoDuplicates(ids) && forall d :: d in ids <==> Desired(store.View(), d)
    {
      hide ListsTagsOf, Indexes, Parts, Items, TagsOf;
      ids := [];
      var snapshot := store.Get();
      if snapshot == null {
        return;
      }
      ghost var lists := snapshot.Lists();
      var keys := Enumerate(snapshot.devices.entries.Keys);
      ToSetEnds(keys);
      for n := 0 to |keys|
        invariant NoDuplicates(ids)
        invariant forall d :: d in ids <==> d in ToSet(keys[..n]) && ListOf(lists, d) != []
      {
        ToSetPrefix(keys, n);
        ItemsFound(snapshot.tagsByDevice.entries, keys[n]);
        var list := Find(snapshot.tagsByDevice.entries, keys[n]);
        if list == null || |list.items| == 0 {
          continue;
        }
        ids := ids + [keys[n]];
      }
      forall d
        ensures d in ids <==> Desired(store.View(), d)
      {
        IndexLists(snapshot, d);
        EmptyIff(ListOf(lists, d), snapshot.tags.entries, d, snapshot.Contents());
      }
    }

    /** A private copy of the device and of the tags in its list: each of its tags exactly once. */
    method GetDeviceConfig(d: Id) returns (device: Option<Device>, tags: seq<Tag>, known: bool)
      requires store.Valid()
      ensures known <==> ConfigOf(store.View(), d).Some?
      ensures known ==> device == ConfigOf(store.View(), d).value.device
      ensures known ==> NoDuplicates(tags) && ToSet(tags) == ConfigOf(store.View(), d).value.tags.Values
    {
      hide Indexes, Parts, Items, TagsOf;
      device, tags, known := None, [], false;
      var snapshot := store.Get();
      if snapshot == null || d !in snapshot.devices.entries {
        return;
      }
      known := true;
      var found := snapshot.devices.entries[d];
      if found != null {
        device := Some(found.device);
      }
      ItemsFound(snapshot.tagsByDevice.entries, d);
      var slice := Find(snapshot.tagsByDevice.entries, d);
      var list: seq<TagSnapshot?> := if slice == null then [] else slice.items;
      IndexLists(snapshot, d);
      for n := 0 to |list|
        invariant |tags| == n && forall i :: 0 <= i < n ==> list[i] != null && tags[i] == list[i].tag
      {
        assert list[n] in list;
        tags := tags + [list[n].tag];
      }
      ListedOnce(list, snapshot.tags.entries, d, snapshot.Contents(), tags);
    }

    /** The part of stopping a device before the wait: its worker leaves the map and is cancelled. */
    method DetachWorker(d: Id) returns (worker: DeviceWorker?)
      modifies this`workers, workers.Values
      ensures worker == if d != "" && d in old(workers) then old(workers)[d] else null
      ensures workers == if worker != null then old(workers) - {d} else old(workers)
      ensures forall w :: w in old(workers).Values ==> w.cancelled == (old(w.cancelled) || w == worker)
    {
      if d == "" || d !in workers {
        return null;
      }
      worker := workers[d];
      workers := workers - {d};
      worker.cancelled := true;
    }

    /** The part of starting a device after the store was read. */
    method CommitWorker(d: Id) returns (worker: DeviceWorker)
      modifies this`workers
      ensures fresh(worker) && !worker.cancelled && workers == old(workers)[d := worker]
    {
      worker := new DeviceWorker();
      workers := workers[d := worker];
    }
  }

  /** The list of a device in an indexed snapshot: its tag objects, each once, and nothing else. */
  ghost predicate ListsTagsOf(list: seq<TagSnapshot?>, tags: Tags, d: Id)
    reads tags.Values
  {
    && NoDuplicates(list)
    && (forall o: TagSnapshot? :: o in list ==> o in tags.Values && o.tag.id in tags && tags[o.tag.id] == o && o.tag.deviceID == d)
    && (forall id :: id in tags && tags[id].tag.deviceID == d ==> tags[id] in list)
  }

  lemma IndexLists(s: Snapshot, d: Id)
    requires s.Indexed()
    ensures ListsTagsOf(ListOf(s.Lists(), d), s.tags.entries, d)
  {
  }

  lemma EmptyIff(list: seq<TagSnapshot?>, tags: Tags, d: Id, c: Config)
    requires ListsTagsOf(list, tags, d) && c.tags == TagValues(tags)
    ensures list != [] <==> TagsOf(c, d) != map[]
  {
    if list != [] {
      assert list[0] in list;
      assert list[0].tag.id in TagsOf(c, d);
    }
    if TagsOf(c, d) != map[] {
      var id :| id in TagsOf(c, d);
      assert tags[id] in list;
    }
  }

  lemma ListedOnce(list: seq<TagSnapshot?>, tags: Tags, d: Id, c: Config, values: seq<Tag>)
    requires ListsTagsOf(list, tags, d) && c.tags == TagValues(tags)
    requires |values| == |list| && forall i :: 0 <= i < |list| ==> list[i] != null && values[i] == list[i].tag
    ensures NoDuplicates(values) && ToSet(values) == TagsOf(c, d).Values
  {
    forall i, j | 0 <= i < j < |values| ensures values[i] != values[j] {
      assert list[i] in list && list[j] in list && list[i] != list[j];
    }
    forall v | v in values ensures v in TagsOf(c, d).Values {
      var i :| 0 <= i < |values| && values[i] == v;
      assert list[i] in list;
      assert TagsOf(c, d)[v.id] == v;
    }
    forall v | v in TagsOf(c, d).Values ensures v in values {
      var id :| id in TagsOf(c, d) && TagsOf(c, d)[id] == v;
      assert tags[id] in list;
      var i :| 0 <= i < |list| && list[i] == tags[id];
      assert values[i] == v;
    }
  }
}
