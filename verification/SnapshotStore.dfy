/** The copy-on-write configuration store and its bounded change notifications. */
module SnapshotStore {
  import opened Common
  import opened Uuids
  import opened DeviceIndex
  import opened Snapshots

  datatype Event =
    | Replaced
    | DeviceUpserted(deviceID: Id)
    | DeviceRemoved(deviceID: Id)
    | TagUpserted(deviceID: Id, tagID: Id)
    | TagRemoved(deviceID: Id, tagID: Id)

  const SUBSCRIPTION_BUFFER_SIZE := 64

  /** A full queue drops the event. */
  function Offered(queue: seq<Event>, event: Event): seq<Event> {
    if |queue| < SUBSCRIPTION_BUFFER_SIZE then queue + [event] else queue
  }

  function Heard(queue: seq<Event>, event: Option<Event>): seq<Event> {
    if event.Some? then Offered(queue, event.value) else queue
  }

  // ---- the operations on a plain map of devices and a plain map of tags ------------------------------------

  datatype Change =
    | Replace(next: Option<Config>)
    | UpsertDevice(device: Device)
    | RemoveDevice(id: Id)
    | UpsertTag(tag: Tag)
    | RemoveTag(id: Id)

  function OrEmpty(c: Option<Config>): Config {
    if c.Some? then c.value else EMPTY_CONFIG
  }

  function TagsOfOthers(tags: map<Id, Tag>, d: Id): map<Id, Tag> {
    map t | t in tags && tags[t].deviceID != d :: tags[t]
  }

  function Changed(c: Option<Config>, change: Change): Option<Config> {
    match change
    case Replace(next) => next
    case UpsertDevice(device) =>
      if device.id == "" then c else Some(OrEmpty(c).(devices := OrEmpty(c).devices[device.id := Some(device)]))
    case RemoveDevice(id) =>
      if id == "" || c.None? then c
      else Some(c.value.(devices := c.value.devices - {id}, tags := TagsOfOthers(c.value.tags, id)))
    case UpsertTag(tag) =>
      if tag.id == "" || tag.deviceID == "" then c else Some(OrEmpty(c).(tags := OrEmpty(c).tags[tag.id := tag]))
    case RemoveTag(id) =>
      if id == "" || c.None? then c else Some(c.value.(tags := c.value.tags - {id}))
  }

  function After(c: Option<Config>, changes: seq<Change>): Option<Config> {
    if changes == [] then c else Changed(After(c, changes[..|changes| - 1]), changes[|changes| - 1])
  }

  /** The event a change publishes, if any. */
  function Announced(c: Option<Config>, change: Change): Option<Event> {
    match change
    case Replace(_) => Some(Replaced)
    case UpsertDevice(device) => if device.id == "" then None else Some(DeviceUpserted(device.id))
    case RemoveDevice(id) => if id == "" || c.None? then None else Some(DeviceRemoved(id))
    case UpsertTag(tag) => if tag.id == "" || tag.deviceID == "" then None else Some(TagUpserted(tag.deviceID, tag.id))
    case RemoveTag(id) =>
      if id == "" || c.None? || id !in c.value.tags then None else Some(TagRemoved(c.value.tags[id].deviceID, id))
  }

  // ---- the next snapshot: a private copy, changed before it is published -----------------------------------

  // What a nullable snapshot can reach, layer by layer: its index, its maps and slices, everything.

  ghost function IndexOf(s: Snapshot?): set<object> {
    if s == null then {} else {s.tagsByDevice}
  }

  ghost function CoreOf(s: Snapshot?): set<object>
    reads IndexOf(s)
  {
    if s == null then {} else s.Core()
  }

  ghost function AllOf(s: Snapshot?): set<object>
    reads IndexOf(s), CoreOf(s)
  {
    if s == null then {} else s.Reachable()
  }

  ghost predicate Good(s: Snapshot?)
    reads IndexOf(s), CoreOf(s), AllOf(s)
  {
    s != null ==> s.Indexed()
  }

  ghost function ContentsOf(s: Snapshot?): Option<Config>
    reads IndexOf(s), CoreOf(s), AllOf(s)
  {
    if s == null then None else Some(s.Contents())
  }

  method CopyOf(s: Snapshot?) returns (next: Snapshot)
    ensures fresh(next) && fresh(next.Reachable()) && fresh(next.devices) && fresh(next.tags) && fresh(next.tagsByDevice)
    ensures old(Good(s)) ==> next.Indexed() && next.Contents() == OrEmpty(old(ContentsOf(s)))
  {
    hide Parts, Indexes, KeepsTags, ListsAreFiled, WellKeyed, TagValues, DeviceValues, Items, Listing;
    next := CloneSnapshot(s);
  }

  lemma WithDevice(devices: map<Id, DeviceSnapshot?>, id: Id, o: DeviceSnapshot)
    ensures DeviceValues(devices[id := o]) == DeviceValues(devices)[id := Some(o.device)]
  {
  }

  lemma WithoutDevice(devices: map<Id, DeviceSnapshot?>, id: Id)
    ensures DeviceValues(devices - {id}) == DeviceValues(devices) - {id}
  {
  }

  /** Assigns a copy of a device in a snapshot that is not yet published. */
  method AssignDevice(next: Snapshot, device: Device)
    modifies next.devices
    ensures forall o :: o in next.Reachable() ==> o in old(next.Reachable()) || fresh(o)
    ensures old(next.Indexed()) ==> next.Indexed()
    ensures next.Contents() == old(next.Contents()).(devices := old(next.Contents()).devices[device.id := Some(device)])
  {
    hide Indexes, TagValues, DeviceValues, Items;
    ghost var before, lists, devices, tags := next.Reachable(), next.Lists(), next.devices.entries, next.tags.entries;
    ghost var config, indexed := next.Contents(), next.Indexed();
    PartsOf(devices, tags, lists);
    var copy := new DeviceSnapshot(device);
    next.devices.entries := next.devices.entries[device.id := copy];
    assert next.Lists() == lists && TagValues(tags) == config.tags && (indexed ==> Indexes(lists, tags));
    assert DeviceValues(devices) == config.devices;
    WithDevice(devices, device.id, copy);
    hide Parts;
    PartsWithin(next.devices.entries, tags, lists, before + {copy});
  }

  method CopyWithDevice(s: Snapshot?, device: Device) returns (next: Snapshot)
    requires device.id != ""
    ensures fresh(next) && fresh(next.Reachable())
    ensures old(Good(s)) ==> next.Indexed() && Some(next.Contents()) == Changed(old(ContentsOf(s)), Change.UpsertDevice(device))
  {
    hide Snapshot.Reachable, Snapshot.Indexed, Snapshot.Contents;
    next := CopyOf(s);
    AssignDevice(next, device);
  }

  /** The tags of a device, to be deleted one by one from a map that is being ranged over. */
  method DeleteTagsOf(tags: TagMap, d: Id)
    modifies tags
    ensures tags.entries == old(tags.entries) - old(TheirTags(tags.entries, d))
  {
    hide ToSet, NoDuplicates;
    ghost var all, theirs := tags.entries, TheirTags(tags.entries, d);
    var keys := Enumerate(tags.entries.Keys);
    ToSetEnds(keys);
    for n := 0 to |keys|
      invariant tags.entries == all - theirs * ToSet(keys[..n])
      invariant TheirTags(all, d) == theirs
    {
      ToSetPrefix(keys, n);
      assert keys[n] in tags.entries;
      if tags.entries[keys[n]].tag.deviceID == d {
        tags.entries := tags.entries - {keys[n]};
      }
    }
    assert theirs * all.Keys == theirs;
  }

  ghost function TheirTags(tags: Tags, d: Id): set<Id>
    reads tags.Values
  {
    set t | t in tags && tags[t].tag.deviceID == d
  }

  lemma DeviceUnfiled(lists: Lists, tags: Tags, d: Id)
    requires Indexes(lists, tags)
    ensures Indexes(lists - {d}, tags - TheirTags(tags, d))
    ensures TagValues(tags - TheirTags(tags, d)) == TagsOfOthers(TagValues(tags), d)
  {
    hide Groups, Distinctly;
    var owner := Owners(TagValues(tags));
    var theirs := set id | id in owner && owner[id] == d;
    assert theirs == TheirTags(tags, d);
    WellKeyedDistinctly(tags);
    DeviceUnfiledGroups<TagSnapshot?>(lists, tags, owner, d);
    assert Owners(TagValues(tags - theirs)) == owner - theirs;
  }

  lemma PartsShrink(next: Snapshot, devices: map<Id, DeviceSnapshot?>, tags: Tags, lists: Lists)
    requires next.devices.entries.Keys <= devices.Keys && (forall d :: d in next.devices.entries ==> next.devices.entries[d] == devices[d])
    requires next.tags.entries.Values <= tags.Values && Members(next.Lists()) <= Members(lists)
    ensures next.Reachable() <= next.Core() + Parts(devices, tags, lists)
  {
  }

  /** Deletes a device, its tags and its list from a snapshot that is not yet published. */
  method DeleteDevice(next: Snapshot, id: Id)
    modifies next.devices, next.tags, next.tagsByDevice
    ensures next.Reachable() <= old(next.Reachable())
    ensures old(next.Indexed()) ==>
      && next.Indexed()
      && next.Contents() == old(next.Contents()).(devices := old(next.Contents()).devices - {id},
                                                  tags := TagsOfOthers(old(next.Contents()).tags, id))
  {
    hide Indexes, TagValues, DeviceValues, Items, TagsOfOthers, TheirTags;
    ghost var core, lists, devices, tags := next.Core(), next.Lists(), next.devices.entries, next.tags.entries;
    ghost var config, indexed, theirs := next.Contents(), next.Indexed(), TheirTags(tags, id);
    ObjectsApart(next, devices, tags, lists);
    next.devices.entries := next.devices.entries - {id};
    DeleteTagsOf(next.tags, id);
    Delete(next.tagsByDevice, id);
    assert DeviceValues(devices) == config.devices && TagValues(tags) == config.tags && TheirTags(tags, id) == theirs;
    assert indexed ==> Indexes(lists, tags);
    WithoutDevice(devices, id);
    MembersWithout(lists, id);
    if indexed {
      DeviceUnfiled(lists, tags, id);
    }
    hide Members;
    assert next.Core() <= core;
    PartsShrink(next, devices, tags, lists);
  }

  /** Maps and slices are no device or tag objects. */
  lemma ObjectsApart(next: Snapshot, devices: map<Id, DeviceSnapshot?>, tags: Tags, lists: Lists)
    ensures forall o: object :: o in Parts(devices, tags, lists) ==>
      o != next.devices && o != next.tags && o != next.tagsByDevice && o !in next.tagsByDevice.entries.Values && allocated(o)
  {
  }

  lemma MembersWithout(lists: Lists, d: Id)
    ensures Members(lists - {d}) <= Members(lists)
  {
  }

  method CopyWithoutDevice(s: Snapshot, id: Id) returns (next: Snapshot)
    requires id != ""
    ensures fresh(next) && fresh(next.Reachable())
    ensures old(Good(s)) ==> next.Indexed() && Some(next.Contents()) == Changed(old(ContentsOf(s)), Change.RemoveDevice(id))
  {
    hide Snapshot.Reachable, Snapshot.Indexed, Snapshot.Contents;
    next := CopyOf(s);
    DeleteDevice(next, id);
  }

  /** The index once the tag that has the id, if any, is taken out of its device's list. */
  ghost function Unlisted(lists: Lists, tags: Tags, id: Id): Lists
    reads tags.Values, if id in tags then Entries(ListOf(lists, tags[id].tag.deviceID)) else {}
  {
    if id in tags then WithoutID(lists, tags[id].tag.deviceID, id) else lists
  }

  method UnlistTag(lists: ListMap, tags: TagMap, id: Id)
    modifies lists
    ensures Items(lists.entries) == old(Unlisted(Items(lists.entries), tags.entries, id))
    ensures OnlyNewLists(old(lists.entries), lists.entries)
  {
    hide Items, WithoutID;
    if id in tags.entries {
      UnfileTag(lists, tags.entries[id].tag.deviceID, id);
    }
  }

  lemma UnlistedFacts(lists: Lists, tags: Tags, id: Id)
    ensures Members(Unlisted(lists, tags, id)) <= Members(lists)
    ensures Indexes(lists, tags) ==> Indexes(Unlisted(lists, tags, id), tags - {id})
  {
    hide WithoutID, Indexes;
    if id in tags {
      WithoutIDMembers(lists, tags[id].tag.deviceID, id);
      if Indexes(lists, tags) {
        WithoutIDIndexes(lists, tags, id);
      }
    } else {
      assert tags - {id} == tags;
    }
  }

  lemma UpsertedFacts(lists: Lists, tags: Tags, id: Id, copy: TagSnapshot)
    requires copy !in tags.Values && copy.tag.id == id
    ensures Members(Upserted(lists, copy)) <= Members(lists) + {copy}
    ensures TagValues(tags[id := copy]) == TagValues(tags)[id := copy.tag]
    ensures Indexes(lists, tags - {id}) ==> Indexes(Upserted(lists, copy), tags[id := copy])
  {
    hide Upserted, Indexes;
    UpsertedMembers(lists, copy);
    WithTag(tags, copy);
    assert (tags - {id})[id := copy] == tags[id := copy];
    if Indexes(lists, tags - {id}) {
      UpsertedIndexes(lists, tags - {id}, copy);
    }
  }

  lemma PartsGrow(next: Snapshot, devices: map<Id, DeviceSnapshot?>, tags: Tags, lists: Lists, copy: TagSnapshot)
    requires next.devices.entries == devices
    requires next.tags.entries.Values <= tags.Values + {copy} && Members(next.Lists()) <= Members(lists) + {copy}
    ensures next.Reachable() <= next.Core() + Parts(devices, tags, lists) + {copy}
  {
  }

  /** Takes the tag that has the id, if any, out of the index, and puts a copy of the new one among the tags. */
  method SwapTag(next: Snapshot, tag: Tag) returns (copy: TagSnapshot)
    modifies next.tags, next.tagsByDevice
    ensures fresh(copy) && copy.tag == tag && next.tags.entries == old(next.tags.entries)[tag.id := copy]
    ensures OnlyNewLists(old(next.tagsByDevice.entries), next.tagsByDevice.entries)
    ensures Members(next.Lists()) <= old(Members(next.Lists()))
    ensures DeviceValues(next.devices.entries) == old(DeviceValues(next.devices.entries))
    ensures TagValues(next.tags.entries) == old(TagValues(next.tags.entries))[tag.id := tag]
    ensures old(next.Indexed()) ==> Indexes(next.Lists(), old(next.tags.entries) - {tag.id})
  {
    hide Indexes, TagValues, DeviceValues, Items, Unlisted;
    var id := tag.id;
    ghost var lists, devices, tags := next.Lists(), next.devices.entries, next.tags.entries;
    ghost var config, indexed, unlisted := next.Contents(), next.Indexed(), Unlisted(next.Lists(), tags, id);
    ObjectsApart(next, devices, tags, lists);
    UnlistedFacts(lists, tags, id);
    UnlistTag(next.tagsByDevice, next.tags, id);
    copy := new TagSnapshot(tag);
    next.tags.entries := next.tags.entries[id := copy];
    assert DeviceValues(devices) == config.devices && TagValues(tags) == config.tags && (indexed ==> Indexes(unlisted, tags - {id}));
    WithTag(tags, copy);
  }

  method AssignTag(next: Snapshot, tag: Tag)
    modifies next.tags, next.tagsByDevice
    ensures forall o :: o in next.Reachable() ==> o in old(next.Reachable()) || fresh(o)
    ensures old(next.Indexed()) ==>
      next.Indexed() && next.Contents() == old(next.Contents()).(tags := old(next.Contents()).tags[tag.id := tag])
  {
    hide Indexes, TagValues, DeviceValues, Items, Upserted, Members;
    ghost var lists, devices, tags := next.Lists(), next.devices.entries, next.tags.entries;
    ghost var config, indexed := next.Contents(), next.Indexed();
    var copy := SwapTag(next, tag);
    ghost var unlisted, all := next.Lists(), next.tags.entries;
    UpsertedFacts(unlisted, tags, tag.id, copy);
    ghost var filed := Upserted(unlisted, copy);
    ObjectsApart(next, devices, all, filed);
    UpsertTagToSlice(next.tagsByDevice, copy);
    assert TagValues(all) == config.tags[tag.id := tag] && (indexed ==> Indexes(filed, all));
    PartsGrow(next, devices, tags, lists, copy);
  }

  method CopyWithTag(s: Snapshot?, tag: Tag) returns (next: Snapshot)
    requires tag.id != "" && tag.deviceID != ""
    ensures fresh(next) && fresh(next.Reachable())
    ensures old(Good(s)) ==> next.Indexed() && Some(next.Contents()) == Changed(old(ContentsOf(s)), Change.UpsertTag(tag))
  {
    hide Snapshot.Reachable, Snapshot.Indexed, Snapshot.Contents;
    next := CopyOf(s);
    AssignTag(next, tag);
  }

  /** Deletes a tag and takes it out of the index of a snapshot that is not yet published. */
  method DeleteTag(next: Snapshot, id: Id)
    requires id in next.tags.entries
    modifies next.tags, next.tagsByDevice
    ensures forall o :: o in next.Reachable() ==> o in old(next.Reachable()) || fresh(o)
    ensures old(next.Indexed()) ==>
      next.Indexed() && next.Contents() == old(next.Contents()).(tags := old(next.Contents()).tags - {id})
  {
    hide Indexes, TagValues, DeviceValues, Items, WithoutID;
    var d := next.tags.entries[id].tag.deviceID;
    ghost var lists, devices, tags := next.Lists(), next.devices.entries, next.tags.entries;
    ghost var config, indexed, rest := next.Contents(), next.Indexed(), WithoutID(next.Lists(), d, id);
    ObjectsApart(next, devices, tags, lists);
    EntriesAreMembers(lists, d);
    WithoutIDMembers(lists, d, id);
    WithoutTag(tags, id);
    if indexed {
      WithoutIDIndexes(lists, tags, id);
    }
    ghost var left := tags - {id};
    next.tags.entries := next.tags.entries - {id};
    assert next.Lists() == lists && WithoutID(lists, d, id) == rest;
    UnfileTag(next.tagsByDevice, d, id);
    assert DeviceValues(devices) == config.devices && TagValues(left) == config.tags - {id} && (indexed ==> Indexes(rest, left));
    hide Members;
    PartsKept(next, devices, tags, lists);
  }

  lemma EntriesAreMembers(lists: Lists, d: Id)
    ensures Entries(ListOf(lists, d)) <= Members(lists)
  {
  }

  lemma PartsKept(next: Snapshot, devices: map<Id, DeviceSnapshot?>, tags: Tags, lists: Lists)
    requires next.devices.entries == devices
    requires next.tags.entries.Values <= tags.Values && Members(next.Lists()) <= Members(lists)
    ensures next.Reachable() <= next.Core() + Parts(devices, tags, lists)
  {
  }

  /** None when there is no such tag; otherwise the copy and the device the tag belonged to. */
  method CopyWithoutTag(s: Snapshot, id: Id) returns (next: Snapshot?, deviceID: Id)
    requires id != ""
    ensures next != null ==> fresh(next) && fresh(next.Reachable())
    ensures old(Good(s)) ==> (next == null <==> id !in old(s.Contents()).tags)
    ensures old(Good(s)) && next != null ==>
      && next.Indexed() && Some(next.Contents()) == Changed(old(ContentsOf(s)), Change.RemoveTag(id))
      && deviceID == old(s.Contents()).tags[id].deviceID
  {
    hide Snapshot.Reachable, Snapshot.Indexed;
    var copy := CopyOf(s);
    ContentsKeys(copy);
    if id !in copy.tags.entries {
      return null, "";
    }
    hide Snapshot.Contents;
    deviceID := copy.tags.entries[id].tag.deviceID;
    DeleteTag(copy, id);
    next := copy;
  }

  lemma ContentsKeys(s: Snapshot)
    ensures s.Contents().tags.Keys == s.tags.entries.Keys
    ensures forall id :: id in s.tags.entries ==> s.Contents().tags[id] == s.tags.entries[id].tag
  {
  }

  lemma NoChange(c: Option<Config>, change: Change)
    ensures !change.Replace? && Announced(c, change).None? ==> Changed(c, change) == c
  {
    if change.RemoveTag? && c.Some? && change.id !in c.value.tags {
      assert c.value.tags - {change.id} == c.value.tags;
    }
  }

  /** What a caller may ask for, with the objects it hands over. */
  datatype Request =
    | ReplaceAll(next: Snapshot?)
    | PutDevice(device: DeviceSnapshot)
    | DropDevice(deviceID: Id)
    | PutTag(tag: TagSnapshot)
    | DropTag(tagID: Id)

  ghost function Handed(request: Request): set<object> {
    match request
    case ReplaceAll(next) => IndexOf(next)
    case PutDevice(device) => {device}
    case DropDevice(_) => {}
    case PutTag(tag) => {tag}
    case DropTag(_) => {}
  }

  ghost function Held(request: Request): set<object>
    reads Handed(request)
  {
    Handed(request) + if request.ReplaceAll? then CoreOf(request.next) else {}
  }

  /** All that a request's meaning depends on. */
  ghost function Footprint(request: Request): set<object>
    reads Handed(request), Held(request)
  {
    Held(request) + if request.ReplaceAll? then AllOf(request.next) else {}
  }

  ghost function ChangeOf(request: Request): Change
    reads Handed(request), Held(request), Footprint(request)
  {
    match request
    case ReplaceAll(next) => Change.Replace(ContentsOf(next))
    case PutDevice(device) => Change.UpsertDevice(device.device)
    case DropDevice(id) => Change.RemoveDevice(id)
    case PutTag(tag) => Change.UpsertTag(tag.tag)
    case DropTag(id) => Change.RemoveTag(id)
  }

  /** A replacement snapshot must come with a right index; nothing else can go wrong. */
  ghost predicate WellFormed(request: Request)
    reads Handed(request), Held(request), Footprint(request)
  {
    request.ReplaceAll? ==> Good(request.next)
  }

  class Subscriber {
    var queue: seq<Event>
    var closed: bool

    constructor ()
      ensures queue == [] && !closed
    {
      queue, closed := [], false;
    }
  }

  class SnapshotStore {
    var snapshot: Snapshot?
    var subscribers: set<Subscriber>

    constructor ()
      ensures snapshot == null && subscribers == {} && Valid()
    {
      snapshot, subscribers := null, {};
    }

    /** The published snapshot's index agrees with its tags. */
    ghost predicate Valid()
      reads this, IndexOf(snapshot), CoreOf(snapshot), AllOf(snapshot)
    {
      Good(snapshot)
    }

    ghost function View(): Option<Config>
      reads this, IndexOf(snapshot), CoreOf(snapshot), AllOf(snapshot)
    {
      ContentsOf(snapshot)
    }

    method Get() returns (current: Snapshot?)
      ensures current == snapshot
    {
      current := snapshot;
    }

    method Subscribe() returns (subscriber: Subscriber)
      modifies this`subscribers
      ensures fresh(subscriber) && subscriber.queue == [] && !subscriber.closed
      ensures subscribers == old(subscribers) + {subscriber}
    {
      subscriber := new Subscriber();
      subscribers := subscribers + {subscriber};
    }

    method Unsubscribe(subscriber: Subscriber?)
      modifies this`subscribers, subscribers
      ensures subscribers == old(subscribers) - {subscriber}
      ensures forall s :: s in old(subscribers) ==> s.queue == old(s.queue) && s.closed == (old(s.closed) || s == subscriber)
    {
      if subscriber == null || subscriber !in subscribers {
        return;
      }
      subscribers := subscribers - {subscriber};
      subscriber.closed := true;
    }

    method PublishEvent(event: Event)
      modifies subscribers
      ensures forall s :: s in subscribers ==> s.queue == Offered(old(s.queue), event) && s.closed == old(s.closed)
    {
      var list := Enumerate(subscribers);
      ToSetEnds(list);
      for n := 0 to |list|
        invariant forall s :: s in subscribers ==> s.closed == old(s.closed)
        invariant forall s :: s in subscribers ==>
          s.queue == if s in ToSet(list[..n]) then Offered(old(s.queue), event) else old(s.queue)
      {
        var subscriber := list[n];
        ToSetPrefix(list, n);
        if |subscriber.queue| < SUBSCRIPTION_BUFFER_SIZE {
          subscriber.queue := subscriber.queue + [event];
        }
      }
    }

    lemma ApartFrom(s: Snapshot)
      ensures forall o :: o in s.Reachable() ==> o != this && o !in subscribers && allocated(o)
    {
    }

    /** The new snapshot first, then the event; announcing changes nothing of it. */
    method Publish(next: Snapshot, event: Event)
      modifies this`snapshot, subscribers
      ensures snapshot == next && subscribers == old(subscribers)
      ensures next.Reachable() == old(next.Reachable()) && next.Contents() == old(next.Contents())
      ensures next.Indexed() == old(next.Indexed())
      ensures forall s :: s in subscribers ==> s.queue == Offered(old(s.queue), event) && s.closed == old(s.closed)
    {
      hide Parts, Snapshot.Indexed, Snapshot.Contents;
      ApartFrom(next);
      ghost var all, config, indexed := next.Reachable(), next.Contents(), next.Indexed();
      snapshot := next;
      assert next.Reachable() == all && next.Contents() == config && next.Indexed() == indexed;
      ApartFrom(next);
      PublishEvent(event);
      assert next.Reachable() == all && next.Contents() == config;
      assert next.Indexed() == indexed;
    }

    /** Publishes a private copy. Its index is right exactly when the lists given are filed under the devices of the tags they name. */
    method Replace(next: Snapshot?)
      modifies this`snapshot, subscribers
      ensures subscribers == old(subscribers)
      ensures forall s :: s in subscribers ==> s.queue == Offered(old(s.queue), Replaced) && s.closed == old(s.closed)
      ensures next == null ==> snapshot == null
      ensures next != null ==>
        && snapshot != null && fresh(snapshot) && fresh(snapshot.Reachable())
        && snapshot.Contents().devices == old(next.Contents()).devices
        && KeepsTags(old(next.Contents()).tags, old(Listing(next.Lists())), snapshot.Contents().tags)
      ensures next != null && old(WellKeyed(next.Contents().tags)) ==>
        (Valid() <==> ListsAreFiled(old(Listing(next.Lists())), snapshot.Contents().tags))
      ensures (next != null ==> old(next.Indexed())) ==>
        Valid() && View() == Changed(old(View()), Change.Replace(if next == null then None else Some(old(next.Contents()))))
    {
      hide Snapshot.Reachable, Snapshot.Indexed, Snapshot.Contents, ListsAreFiled, KeepsTags, WellKeyed, Listing;
      if next == null {
        snapshot := null;
        PublishEvent(Replaced);
      } else {
        var copy := CloneSnapshot(next);
        Publish(copy, Replaced);
      }
    }

    method UpsertDevice(device: DeviceSnapshot?)
      modifies this`snapshot, subscribers
      ensures device == null ==> snapshot == old(snapshot) && forall s :: s in subscribers ==> s.queue == old(s.queue)
      ensures device != null && old(Valid()) ==> Valid() && View() == Changed(old(View()), Change.UpsertDevice(device.device))
      ensures device != null && old(Valid()) ==> forall s :: s in subscribers ==>
        s.queue == Heard(old(s.queue), Announced(old(View()), Change.UpsertDevice(device.device))) && s.closed == old(s.closed)
      ensures snapshot == old(snapshot) || (snapshot != null && fresh(snapshot) && fresh(snapshot.Reachable()))
      ensures subscribers == old(subscribers)
    {
      hide Snapshot.Reachable, Snapshot.Indexed, Snapshot.Contents, Changed;
      if device == null {
        return;
      }
      NoChange(View(), Change.UpsertDevice(device.device));
      if device.device.id == "" {
        return;
      }
      var next := CopyWithDevice(snapshot, device.device);
      Publish(next, DeviceUpserted(device.device.id));
    }

    method RemoveDevice(deviceID: Id)
      modifies this`snapshot, subscribers
      ensures old(Valid()) ==> Valid() && View() == Changed(old(View()), Change.RemoveDevice(deviceID))
      ensures old(Valid()) ==> forall s :: s in subscribers ==>
        s.queue == Heard(old(s.queue), Announced(old(View()), Change.RemoveDevice(deviceID))) && s.closed == old(s.closed)
      ensures snapshot == old(snapshot) || (snapshot != null && fresh(snapshot) && fresh(snapshot.Reachable()))
      ensures subscribers == old(subscribers)
    {
      hide Snapshot.Reachable, Snapshot.Indexed, Snapshot.Contents, Changed;
      NoChange(View(), Change.RemoveDevice(deviceID));
      if deviceID == "" || snapshot == null {
        return;
      }
      var next := CopyWithoutDevice(snapshot, deviceID);
      Publish(next, DeviceRemoved(deviceID));
    }

    method UpsertTag(tag: TagSnapshot?)
      modifies this`snapshot, subscribers
      ensures tag == null ==> snapshot == old(snapshot) && forall s :: s in subscribers ==> s.queue == old(s.queue)
      ensures tag != null && old(Valid()) ==> Valid() && View() == Changed(old(View()), Change.UpsertTag(tag.tag))
      ensures tag != null && old(Valid()) ==> forall s :: s in subscribers ==>
        s.queue == Heard(old(s.queue), Announced(old(View()), Change.UpsertTag(tag.tag))) && s.closed == old(s.closed)
      ensures snapshot == old(snapshot) || (snapshot != null && fresh(snapshot) && fresh(snapshot.Reachable()))
      ensures subscribers == old(subscribers)
    {
      hide Snapshot.Reachable, Snapshot.Indexed, Snapshot.Contents, Changed;
      if tag == null {
        return;
      }
      NoChange(View(), Change.UpsertTag(tag.tag));
      if tag.tag.id == "" || tag.tag.deviceID == "" {
        return;
      }
      var next := CopyWithTag(snapshot, tag.tag);
      Publish(next, TagUpserted(tag.tag.deviceID, tag.tag.id));
    }

    method RemoveTag(tagID: Id)
      modifies this`snapshot, subscribers
      ensures old(Valid()) ==> Valid() && View() == Changed(old(View()), Change.RemoveTag(tagID))
      ensures old(Valid()) ==> forall s :: s in subscribers ==>
        s.queue == Heard(old(s.queue), Announced(old(View()), Change.RemoveTag(tagID))) && s.closed == old(s.closed)
      ensures snapshot == old(snapshot) || (snapshot != null && fresh(snapshot) && fresh(snapshot.Reachable()))
      ensures subscribers == old(subscribers)
    {
      hide Snapshot.Reachable, Snapshot.Indexed, Snapshot.Contents, Changed;
      NoChange(View(), Change.RemoveTag(tagID));
      if tagID == "" || snapshot == null {
        return;
      }
      NotMine(snapshot);
      var next, deviceID := CopyWithoutTag(snapshot, tagID);
      if next == null {
        Untouched(snapshot);
        return;
      }
      Publish(next, TagRemoved(deviceID, tagID));
    }

    // ---- whole runs -----------------------------------------------------------------------------------------

    method Serve(request: Request)
      modifies this`snapshot, subscribers
      ensures old(Valid() && WellFormed(request)) ==> Valid() && View() == Changed(old(View()), old(ChangeOf(request)))
      ensures old(Valid() && WellFormed(request)) ==> forall s :: s in subscribers ==>
        s.queue == Heard(old(s.queue), Announced(old(View()), old(ChangeOf(request)))) && s.closed == old(s.closed)
      ensures snapshot == old(snapshot) || snapshot == null || (fresh(snapshot) && fresh(snapshot.Reachable()))
      ensures subscribers == old(subscribers)
    {
      hide Changed, Offered, Snapshot.Contents, Snapshot.Indexed, Snapshot.Reachable;
      match request
      case ReplaceAll(next) => Replace(next);
      case PutDevice(device) => UpsertDevice(device);
      case DropDevice(id) => RemoveDevice(id);
      case PutTag(tag) => UpsertTag(tag);
      case DropTag(id) => RemoveTag(id);
    }

    /** Any number of requests in a row, with a reader taking the snapshot before the first and after each: in the end every one of
      * the snapshots taken still says what the fold of the plain-map operations said at that moment, and has a right index. */
    method ServeAll(requests: seq<Request>, ghost changes: seq<Change>) returns (taken: seq<Snapshot?>)
      requires |changes| == |requests| && forall i :: 0 <= i < |requests| ==> WellFormed(requests[i]) && ChangeOf(requests[i]) == changes[i]
      requires Valid()
      modifies this`snapshot, subscribers
      ensures |taken| == |requests| + 1 && taken[0] == old(snapshot) && taken[|requests|] == snapshot
      ensures forall i :: 0 <= i <= |requests| ==> Good(taken[i]) && ContentsOf(taken[i]) == After(old(View()), changes[..i])
      ensures Valid() && View() == After(old(View()), changes)
    {
      hide Changed, WellFormed, ChangeOf, ContentsOf, Good, Footprint, AllOf;
      taken := [snapshot];
      assert changes[..0] == [];
      for n := 0 to |requests|
        invariant subscribers == old(subscribers) && |taken| == n + 1 && taken[0] == old(snapshot) && taken[n] == snapshot
        invariant forall i :: n <= i < |requests| ==> WellFormed(requests[i]) && ChangeOf(requests[i]) == changes[i]
        invariant forall i :: 0 <= i <= n ==> Good(taken[i]) && ContentsOf(taken[i]) == After(old(View()), changes[..i])
      {
        forall i | 0 <= i <= n
          ensures allocated(AllOf(taken[i])) && this !in AllOf(taken[i]) && AllOf(taken[i]) !! subscribers
        {
          NotMine(taken[i]);
        }
        forall i | n < i < |requests|
          ensures allocated(Footprint(requests[i])) && this !in Footprint(requests[i]) && Footprint(requests[i]) !! subscribers
        {
          NotMineToo(requests[i]);
        }
        label Before:
        Serve(requests[n]);
        forall i | n < i < |requests|
          ensures WellFormed(requests[i]) && ChangeOf(requests[i]) == changes[i]
        {
          RequestUntouched@Before(requests[i]);
        }
        forall i | 0 <= i <= n
          ensures Good(taken[i]) && ContentsOf(taken[i]) == After(old(View()), changes[..i])
        {
          Untouched@Before(taken[i]);
        }
        taken := taken + [snapshot];
        assert changes[..n + 1][..n] == changes[..n];
      }
      assert changes[..|requests|] == changes;
    }

    /** Nothing that a snapshot reaches or a request hands over is this store or one of its subscribers. */
    lemma NotMine(s: Snapshot?)
      ensures allocated(AllOf(s)) && this !in AllOf(s) && AllOf(s) !! subscribers
    {
    }

    lemma NotMineToo(request: Request)
      ensures allocated(Footprint(request)) && this !in Footprint(request) && Footprint(request) !! subscribers
    {
      if request.ReplaceAll? {
        NotMine(request.next);
      }
      hide AllOf;
    }
  }

  /** What is said of a snapshot depends on nothing else than what it reaches. */
  twostate lemma Untouched(s: Snapshot?)
    requires forall o :: o in old(AllOf(s)) ==> unchanged(o)
    ensures Good(s) == old(Good(s)) && ContentsOf(s) == old(ContentsOf(s))
  {
    hide Parts, Items, Indexes, TagValues, DeviceValues;
    if s != null {
      assert s.tagsByDevice in old(AllOf(s));
      assert s.Core() == old(s.Core());
      assert s.Lists() == old(s.Lists());
    }
  }

  twostate lemma RequestUntouched(request: Request)
    requires forall o :: o in old(Footprint(request)) ==> unchanged(o)
    ensures WellFormed(request) == old(WellFormed(request)) && ChangeOf(request) == old(ChangeOf(request))
  {
    hide ContentsOf, Good, AllOf;
    match request
    case ReplaceAll(next) =>
      assert old(AllOf(next)) <= old(Footprint(request));
      Untouched(next);
    case PutDevice(device) => assert device in old(Footprint(request));
    case PutTag(tag) => assert tag in old(Footprint(request));
    case _ =>
  }
}
