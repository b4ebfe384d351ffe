/** What the store holds after any sequence of changes, id by id: the last word on each tag and each device. */
module SnapshotRuns {
  import opened Common
  import opened DeviceIndex
  import opened Snapshots
  import opened SnapshotStore

  function TagNow(c: Option<Config>, t: Id): Option<Tag> {
    if c.Some? && t in c.value.tags then Some(c.value.tags[t]) else None
  }

  function DeviceNow(c: Option<Config>, d: Id): Option<Option<Device>> {
    if c.Some? && d in c.value.devices then Some(c.value.devices[d]) else None
  }

  /** The last word on a tag: its latest upsert, unless it was removed since, or its device was, or everything was replaced. A change
    * without an id says nothing. */
  function LastTag(c: Option<Config>, changes: seq<Change>, t: Id): Option<Tag> {
    if changes == [] then TagNow(c, t)
    else
      var before := LastTag(c, changes[..|changes| - 1], t);
      match changes[|changes| - 1]
      case Replace(next) => TagNow(next, t)
      case UpsertTag(tag) => if tag.id == t && t != "" && tag.deviceID != "" then Some(tag) else before
      case RemoveTag(id) => if id == t && t != "" then None else before
      case RemoveDevice(d) => if d != "" && before.Some? && before.value.deviceID == d then None else before
      case UpsertDevice(_) => before
  }

  /** The last word on a device. */
  function LastDevice(c: Option<Config>, changes: seq<Change>, d: Id): Option<Option<Device>> {
    if changes == [] then DeviceNow(c, d)
    else
      var before := LastDevice(c, changes[..|changes| - 1], d);
      match changes[|changes| - 1]
      case Replace(next) => DeviceNow(next, d)
      case UpsertDevice(device) => if device.id == d && d != "" then Some(Some(device)) else before
      case RemoveDevice(id) => if id == d && d != "" then None else before
      case _ => before
  }

  /** After any changes the store holds of every tag the last word on it. */
  lemma {:induction false} TagsFollow(c: Option<Config>, changes: seq<Change>, t: Id)
    ensures TagNow(After(c, changes), t) == LastTag(c, changes, t)
  {
    if changes != [] {
      TagsFollow(c, changes[..|changes| - 1], t);
    }
  }

  /** And of every device. */
  lemma {:induction false} DevicesFollow(c: Option<Config>, changes: seq<Change>, d: Id)
    ensures DeviceNow(After(c, changes), d) == LastDevice(c, changes, d)
  {
    if changes != [] {
      DevicesFollow(c, changes[..|changes| - 1], d);
    }
  }

  /** Without a replacement, the load time stays, and there is a snapshot exactly if there was one or something was upserted. */
  lemma {:induction false} NothingElseChanges(c: Option<Config>, changes: seq<Change>)
    requires forall i :: 0 <= i < |changes| ==> !changes[i].Replace?
    ensures var r := After(c, changes);
      && (r.Some? ==> r.value.loadedAt == if c.Some? then c.value.loadedAt else 0)
      && (r.Some? <==> c.Some? || exists i :: 0 <= i < |changes| && Creates(changes[i]))
  {
    if changes != [] {
      var front := changes[..|changes| - 1];
      NothingElseChanges(c, front);
      if i :| 0 <= i < |front| && Creates(front[i]) {
        assert Creates(changes[i]);
      }
      if i :| 0 <= i < |changes| && Creates(changes[i]) {
        assert i == |front| || Creates(front[i]);
      }
    }
  }

  /** An upsert of a device with an id, or of a tag with an id and a device. */
  predicate Creates(change: Change) {
    || (change.UpsertDevice? && change.device.id != "")
    || (change.UpsertTag? && change.tag.id != "" && change.tag.deviceID != "")
  }

  /** A change is announced exactly if it can make a difference, and what is announced is so: a tag that is announced is held under the
    * device that the event names, one whose removal is announced was held under that device and is not held any more, a device whose
    * removal is announced is gone with all its tags. */
  lemma AnnouncedIff(c: Option<Config>, change: Change, t: Id)
    ensures Announced(c, change).Some? <==>
      change.Replace? || Creates(change) || (c.Some? && change.RemoveDevice? && change.id != "")
      || (change.RemoveTag? && change.id != "" && TagNow(c, change.id).Some?)
    ensures Announced(c, change).Some? ==>
      var next := Changed(c, change);
      match Announced(c, change).value
      case Replaced => change == Replace(next)
      case DeviceUpserted(d) => change == UpsertDevice(change.device) && change.device.id == d
                                && DeviceNow(next, d) == Some(Some(change.device))
      case DeviceRemoved(d) => change.RemoveDevice? && DeviceNow(next, d) == None
                               && (TagNow(next, t).Some? ==> TagNow(next, t) == TagNow(c, t) && TagNow(c, t).value.deviceID != d)
      case TagUpserted(d, g) => change == UpsertTag(change.tag) && TagNow(next, g) == Some(change.tag) && change.tag.deviceID == d
      case TagRemoved(d, g) => TagNow(c, g).Some? && TagNow(c, g).value.deviceID == d && TagNow(next, g) == None
  {
  }

  /** A subscriber that reads its queue in time hears of every change that can make a difference, in order, and misses one exactly when
    * 64 are waiting. */
  lemma HearsUnlessFull(c: Option<Config>, change: Change, queue: seq<Event>)
    ensures Announced(c, change).None? ==> Changed(c, change) == c && Heard(queue, Announced(c, change)) == queue
    ensures Announced(c, change).Some? ==>
      Heard(queue, Announced(c, change)) == if |queue| < 64 then queue + [Announced(c, change).value] else queue
  {
    if change.RemoveTag? && c.Some? && change.id !in c.value.tags {
      assert c.value.tags - {change.id} == c.value.tags;
    }
  }
}
