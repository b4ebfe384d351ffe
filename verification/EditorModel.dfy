/** The editor's tables, what its edits do to them and which events it publishes; and what a topic's members are by the tables. */
module EditorModel {
  import opened Common
  import opened Uuids
  import opened MembershipModel

  datatype Diagram = Diagram(objectID: Uuid, live: bool)
  datatype Figure = Figure(diagramID: Uuid, tagID: Option<Uuid>, live: bool)
  datatype Device = Device(objectID: Option<Uuid>, live: bool)
  datatype Tag = Tag(deviceID: Uuid, live: bool)

  /** Rows by id; a deleted row stays and is no longer live. */
  datatype Tables = Tables(
    objects: map<Uuid, bool>, diagrams: map<Uuid, Diagram>, figures: map<Uuid, Figure>, devices: map<Uuid, Device>, tags: map<Uuid, Tag>)

  // ---- the members of a topic -----------------------------------------------------------------------------------

  ghost function Least(s: set<Uuid>): (m: Uuid)
    requires s != {}
    ensures m in s && forall x :: x in s ==> m <= x
  {
    var x :| x in s;
    if s == {x} then x
    else
      var m := Least(s - {x});
      assert forall y :: y in s ==> y == x || y in s - {x};
      if x < m then x else m
  }

  /** The ids in ascending order, as a query returns them. */
  ghost function Ascending(s: set<Uuid>): (list: seq<Uuid>)
    ensures ToSet(list) == s && |list| == |s|
  {
    if s == {} then []
    else
      var rest := Ascending(s - {Least(s)});
      assert forall x :: x in [Least(s)] + rest <==> x == Least(s) || x in ToSet(rest);
      [Least(s)] + rest
  }

  lemma AscendingOne(x: Uuid)
    ensures Ascending({x}) == [x]
  {
    var list := Ascending({x});
    assert list[0] in ToSet(list);
  }

  function DiagramTags(t: Tables, diagram: Uuid): set<Uuid> {
    set f | f in t.figures && t.figures[f].live && t.figures[f].diagramID == diagram && t.figures[f].tagID.Some? :: t.figures[f].tagID.value
  }

  predicate OnObject(t: Tables, device: Uuid, objectID: Uuid) {
    device in t.devices && t.devices[device].live && t.devices[device].objectID == Some(objectID)
  }

  function ObjectTags(t: Tables, objectID: Uuid): set<Uuid> {
    set g | g in t.tags && t.tags[g].live && OnObject(t, t.tags[g].deviceID, objectID)
  }

  /** A topic has members only while its diagram or object is live. */
  function MembersOf(t: Tables, topic: Topic): Option<set<Uuid>> {
    match topic
    case Text(_) => None
    case DiagramTopic(id) => if id.uuid in t.diagrams && t.diagrams[id.uuid].live then Some(DiagramTags(t, id.uuid)) else None
    case ObjectTopic(id) => if id.uuid in t.objects && t.objects[id.uuid] then Some(ObjectTags(t, id.uuid)) else None
  }

  /** What the repository says. */
  ghost function Rows(t: Tables, topic: Topic): Source {
    var members := MembersOf(t, topic);
    if members.Some? then Found(Ascending(members.value)) else Missing
  }

  /** What a resolve that asks the repository answers, when that does not fail. */
  ghost function Fresh(limit: nat, t: Tables, topic: Topic): Answer {
    AnswerOf(EMPTY_CACHE, topic, Rows(t, topic), limit, 0)
  }

  lemma FreshOf(limit: nat, t: Tables, topic: Topic, members: set<Uuid>)
    requires MembersOf(t, topic) == Some(members)
    ensures Fresh(limit, t, topic) == if |members| > limit then Failed(LimitExceeded) else Resolved(Distinct(Ascending(members)))
  {
    assert !topic.Text?;
    hide MembersOf, Ascending, Distinct;
  }

  // ---- edits ----------------------------------------------------------------------------------------------------

  /** The editor's calls that write these tables or publish an event. The ids of new rows are drawn by the database. */
  datatype Edit =
    | DeleteObject(monitored: Id)
    | DeleteDiagram(diagram: Id)
    | CreateFigures(diagramID: Uuid, created: map<Uuid, Option<Uuid>>)
    | BulkUpsertFigures(diagramID: Uuid, created: map<Uuid, Option<Uuid>>, updated: map<Uuid, Option<Uuid>>)
    | DeleteFigure(figure: Id)
    | CreateDevice(device: Uuid, objectID: Option<Uuid>)
    | ChangeDevice(device: Uuid)
    | AssignDevice(device: Uuid, objectID: Option<Uuid>)
    | DeleteDevice(device: Uuid)
    | CreateTag(tag: Uuid, device: Uuid)
    | ChangeTag(tag: Uuid)
    | DeleteTag(tag: Uuid)

  function FiguresOf(t: Tables, diagram: Uuid): set<Uuid> {
    set f | f in t.figures && t.figures[f].live && t.figures[f].diagramID == diagram
  }

  predicate DeviceIsLive(t: Tables, device: Uuid) {
    device in t.devices && t.devices[device].live
  }

  predicate TagIsLive(t: Tables, tag: Uuid) {
    tag in t.tags && t.tags[tag].live
  }

  /** When an edit succeeds; otherwise it changes and publishes nothing. */
  predicate Succeeds(t: Tables, edit: Edit) {
    match edit
    case DeleteObject(o) => o.uuid in t.objects && t.objects[o.uuid]
    case DeleteDiagram(d) => d.uuid in t.diagrams && t.diagrams[d.uuid].live
    case CreateFigures(_, created) => created.Keys !! t.figures.Keys
    case BulkUpsertFigures(d, created, updated) => created.Keys !! t.figures.Keys && updated.Keys <= FiguresOf(t, d)
    case DeleteFigure(f) => f.uuid in t.figures && t.figures[f.uuid].live
    case CreateDevice(device, _) => device !in t.devices
    case ChangeDevice(device) => DeviceIsLive(t, device)
    case AssignDevice(device, _) => DeviceIsLive(t, device)
    case DeleteDevice(device) => DeviceIsLive(t, device)
    case CreateTag(tag, device) => tag !in t.tags && DeviceIsLive(t, device)
    case ChangeTag(tag) => TagIsLive(t, tag)
    case DeleteTag(tag) => TagIsLive(t, tag)
  }

  function NewFigures(diagram: Uuid, created: map<Uuid, Option<Uuid>>): map<Uuid, Figure> {
    map f | f in created :: Figure(diagram, created[f], true)
  }

  /** A bulk upsert rewrites the figures it lists, and those of the diagram that it does not list are deleted. */
  function Upserted(t: Tables, diagram: Uuid, created: map<Uuid, Option<Uuid>>, updated: map<Uuid, Option<Uuid>>): map<Uuid, Figure> {
    (map f | f in t.figures ::
       if f !in FiguresOf(t, diagram) then t.figures[f]
       else if f in updated then t.figures[f].(tagID := updated[f])
       else t.figures[f].(live := false)) + NewFigures(diagram, created)
  }

  predicate DiagramOf(t: Tables, diagram: Uuid, objectID: Uuid) {
    diagram in t.diagrams && t.diagrams[diagram].objectID == objectID
  }

  predicate DeviceOf(t: Tables, device: Uuid, objectID: Uuid) {
    device in t.devices && t.devices[device].objectID == Some(objectID)
  }

  /** An object goes with its devices, their tags, its diagrams and their figures. */
  function ObjectDeleted(t: Tables, o: Uuid): Tables {
    Tables(map x | x in t.objects :: x != o && t.objects[x],
           map d | d in t.diagrams :: if DiagramOf(t, d, o) then t.diagrams[d].(live := false) else t.diagrams[d],
           map f | f in t.figures :: if DiagramOf(t, t.figures[f].diagramID, o) then t.figures[f].(live := false) else t.figures[f],
           map d | d in t.devices :: if DeviceOf(t, d, o) then t.devices[d].(live := false) else t.devices[d],
           map g | g in t.tags :: if DeviceOf(t, t.tags[g].deviceID, o) then t.tags[g].(live := false) else t.tags[g])
  }

  function Edited(t: Tables, edit: Edit): Tables
    requires Succeeds(t, edit)
  {
    match edit
    case DeleteObject(o) => ObjectDeleted(t, o.uuid)
    case DeleteDiagram(d) =>
      t.(diagrams := t.diagrams[d.uuid := t.diagrams[d.uuid].(live := false)],
         figures := map f | f in t.figures :: if t.figures[f].diagramID == d.uuid then t.figures[f].(live := false) else t.figures[f])
    case CreateFigures(d, created) => t.(figures := t.figures + NewFigures(d, created))
    case BulkUpsertFigures(d, created, updated) => t.(figures := Upserted(t, d, created, updated))
    case DeleteFigure(f) => t.(figures := t.figures[f.uuid := t.figures[f.uuid].(live := false)])
    case CreateDevice(device, objectID) => t.(devices := t.devices[device := Device(objectID, true)])
    case ChangeDevice(_) => t
    case AssignDevice(device, objectID) => t.(devices := t.devices[device := Device(objectID, true)])
    case DeleteDevice(device) =>
      t.(devices := t.devices[device := t.devices[device].(live := false)],
         tags := map g | g in t.tags :: if t.tags[g].deviceID == device then t.tags[g].(live := false) else t.tags[g])
    case CreateTag(tag, device) => t.(tags := t.tags[tag := Tag(device, true)])
    case ChangeTag(_) => t
    case DeleteTag(tag) => t.(tags := t.tags[tag := t.tags[tag].(live := false)])
  }

  /** An id as the database writes it. */
  function Plain(uuid: Uuid): Id {
    Id(uuid, 0)
  }

  /** An event without a string at the top level of its payload under the name that the handler looks for. The payload of a figure's
    * event is null, and that of a device's has the device one level down. */
  function Bare(entity: Entity, id: Id): Event {
    Event(entity, id, None)
  }

  /** The events that the editor publishes after an edit. Creating figures publishes none. */
  function Published(t: Tables, edit: Edit): multiset<Event> {
    match edit
    case DeleteObject(o) => multiset{Bare(ObjectEntity, o)}
    case DeleteDiagram(d) => multiset{Bare(DiagramEntity, d)}
    case CreateFigures(_, _) => multiset{}
    case BulkUpsertFigures(d, created, _) => multiset(set f | f in created.Keys + FiguresOf(t, d) :: Bare(FigureEntity, Plain(f)))
    case DeleteFigure(f) => multiset{Bare(FigureEntity, f)}
    case CreateDevice(device, _) => multiset{Bare(DeviceEntity, Plain(device))}
    case ChangeDevice(device) => multiset{Bare(DeviceEntity, Plain(device))}
    case AssignDevice(device, _) => multiset{Bare(DeviceEntity, Plain(device))}
    case DeleteDevice(device) => multiset{Bare(DeviceEntity, Plain(device))}
    case CreateTag(tag, _) => multiset{Bare(TagEntity, Plain(tag))}
    case ChangeTag(tag) => multiset{Bare(TagEntity, Plain(tag))}
    case DeleteTag(tag) => multiset{Bare(TagEntity, Plain(tag))}
  }

  /** A bulk upsert publishes one event for each figure that it creates, updates or deletes; an edit of one row publishes one event, about
    * that row. */
  lemma PublishedAbout(t: Tables, edit: Edit, figure: Uuid)
    ensures edit.BulkUpsertFigures? ==>
      Published(t, edit)[Event(FigureEntity, Id(figure, 0), None)]
      == if figure in edit.created || (figure in t.figures && t.figures[figure].live && t.figures[figure].diagramID == edit.diagramID)
         then 1 else 0
    ensures !edit.BulkUpsertFigures? && !edit.CreateFigures? ==> |Published(t, edit)| == 1
    ensures edit.CreateFigures? ==> Published(t, edit) == multiset{}
  {
    if edit.BulkUpsertFigures? {
      var ids := edit.created.Keys + FiguresOf(t, edit.diagramID);
      assert figure in ids <==> Bare(FigureEntity, Plain(figure)) in (set f | f in ids :: Bare(FigureEntity, Plain(f)));
    }
  }

  /** An edit fails only for rows that are missing or no longer live, and for figures of another diagram. */
  lemma LiveRowsAreEdited(t: Tables, id: Id, objectID: Option<Uuid>, f: Uuid, tag: Option<Uuid>)
    ensures id.uuid in t.objects && t.objects[id.uuid] <==> Succeeds(t, DeleteObject(id))
    ensures id.uuid in t.diagrams && t.diagrams[id.uuid].live <==> Succeeds(t, DeleteDiagram(id))
    ensures id.uuid in t.figures && t.figures[id.uuid].live <==> Succeeds(t, DeleteFigure(id))
    ensures id.uuid in t.devices && t.devices[id.uuid].live <==>
      Succeeds(t, ChangeDevice(id.uuid)) && Succeeds(t, AssignDevice(id.uuid, objectID)) && Succeeds(t, DeleteDevice(id.uuid))
    ensures id.uuid in t.tags && t.tags[id.uuid].live <==> Succeeds(t, ChangeTag(id.uuid)) && Succeeds(t, DeleteTag(id.uuid))
    ensures f in t.figures && t.figures[f].live && t.figures[f].diagramID == id.uuid <==>
      Succeeds(t, BulkUpsertFigures(id.uuid, map[], map[f := tag]))
    ensures f !in t.figures <==> Succeeds(t, BulkUpsertFigures(id.uuid, map[f := tag], map[]))
  {
    var one: map<Uuid, Option<Uuid>> := map[f := tag];
    assert f in one.Keys && one.Keys == {f};
  }

  /** A new row needs an id that no row has, and a new tag a live device. */
  lemma MissingRowsAreMade(t: Tables, device: Uuid, objectID: Option<Uuid>, tag: Uuid, f: Uuid, shown: Option<Uuid>, diagram: Uuid)
    ensures Succeeds(t, CreateDevice(device, objectID)) <==> device !in t.devices
    ensures Succeeds(t, CreateTag(tag, device)) <==> tag !in t.tags && device in t.devices && t.devices[device].live
    ensures Succeeds(t, CreateFigures(diagram, map[f := shown])) <==> f !in t.figures
  {
    var one: map<Uuid, Option<Uuid>> := map[f := shown];
    assert f in one.Keys && one.Keys == {f};
  }

  predicate FigureIsLive(t: Tables, figure: Uuid) {
    figure in t.figures && t.figures[figure].live
  }

  /** A device is alive after an edit if the edit made it, or if it was alive and neither it nor its object was deleted. */
  lemma LiveDevicesAfter(t: Tables, edit: Edit, d: Uuid)
    requires Succeeds(t, edit)
    ensures DeviceIsLive(Edited(t, edit), d) <==>
      match edit
      case CreateDevice(device, _) => d == device || DeviceIsLive(t, d)
      case DeleteDevice(device) => d != device && DeviceIsLive(t, d)
      case DeleteObject(o) => DeviceIsLive(t, d) && t.devices[d].objectID != Some(o.uuid)
      case _ => DeviceIsLive(t, d)
  {
  }

  /** So is a tag, which goes with its device and with the object of its device. */
  lemma LiveTagsAfter(t: Tables, edit: Edit, g: Uuid)
    requires Succeeds(t, edit)
    ensures TagIsLive(Edited(t, edit), g) <==>
      match edit
      case CreateTag(tag, _) => g == tag || TagIsLive(t, g)
      case DeleteTag(tag) => g != tag && TagIsLive(t, g)
      case DeleteDevice(device) => TagIsLive(t, g) && t.tags[g].deviceID != device
      case DeleteObject(o) =>
        TagIsLive(t, g) && (t.tags[g].deviceID in t.devices ==> t.devices[t.tags[g].deviceID].objectID != Some(o.uuid))
      case _ => TagIsLive(t, g)
  {
  }

  /** And a figure, which goes with its diagram, with the object of its diagram, and when a bulk upsert of the diagram leaves it out. */
  lemma LiveFiguresAfter(t: Tables, edit: Edit, f: Uuid)
    requires Succeeds(t, edit)
    ensures FigureIsLive(Edited(t, edit), f) <==>
      match edit
      case CreateFigures(_, created) => f in created || FigureIsLive(t, f)
      case BulkUpsertFigures(d, created, updated) => f in created || (FigureIsLive(t, f) && (t.figures[f].diagramID == d ==> f in updated))
      case DeleteFigure(figure) => f != figure.uuid && FigureIsLive(t, f)
      case DeleteDiagram(d) => FigureIsLive(t, f) && t.figures[f].diagramID != d.uuid
      case DeleteObject(o) =>
        FigureIsLive(t, f) && (t.figures[f].diagramID in t.diagrams ==> t.diagrams[t.figures[f].diagramID].objectID != o.uuid)
      case _ => FigureIsLive(t, f)
  {
  }

  /** One of the events, once handled, drops the list cached under the topic. */
  ghost predicate Told(events: multiset<Event>, topic: Topic, list: seq<Uuid>) {
    exists e :: e in events && Names(e, topic, list)
  }

  // ---- what each edit does to the members ----------------------------------------------------------------------

  /** A diagram has the tags that its live figures show, and an object the live tags of its live devices. */
  lemma MemberIff(t: Tables, id: Id, tag: Uuid)
    ensures MembersOf(t, Text("")) == None
    ensures MembersOf(t, DiagramTopic(id)).Some? <==> id.uuid in t.diagrams && t.diagrams[id.uuid].live
    ensures MembersOf(t, ObjectTopic(id)).Some? <==> id.uuid in t.objects && t.objects[id.uuid]
    ensures MembersOf(t, DiagramTopic(id)).Some? ==>
      (tag in MembersOf(t, DiagramTopic(id)).value
       <==> exists f :: f in t.figures && t.figures[f] == Figure(id.uuid, Some(tag), true))
    ensures MembersOf(t, ObjectTopic(id)).Some? ==>
      (tag in MembersOf(t, ObjectTopic(id)).value
       <==> tag in t.tags && t.tags[tag].live && t.tags[tag].deviceID in t.devices
            && t.devices[t.tags[tag].deviceID] == Device(Some(id.uuid), true))
  {
    if f :| f in t.figures && t.figures[f] == Figure(id.uuid, Some(tag), true) {
      assert tag in DiagramTags(t, id.uuid);
    }
  }

  function TagsOn(t: Tables, device: Uuid): set<Uuid> {
    set g | g in t.tags && t.tags[g].live && t.tags[g].deviceID == device
  }

  /** The tags that the given figures show. */
  function Shown(figures: map<Uuid, Option<Uuid>>): set<Uuid> {
    set f | f in figures && figures[f].Some? :: figures[f].value
  }

  /** Tags come and go with the object that their device is assigned to; diagrams do not change with them. */
  lemma TagEditsMove(t: Tables, edit: Edit, id: Id)
    requires Succeeds(t, edit) && (edit.CreateTag? || edit.ChangeTag? || edit.DeleteTag?)
    ensures MembersOf(Edited(t, edit), DiagramTopic(id)) == MembersOf(t, DiagramTopic(id))
    ensures var before, after := MembersOf(t, ObjectTopic(id)), MembersOf(Edited(t, edit), ObjectTopic(id));
      && (before.Some? <==> after.Some?)
      && (before.Some? ==>
            after.value ==
            match edit
            case CreateTag(tag, device) => if t.devices[device].objectID == Some(id.uuid) then before.value + {tag} else before.value
            case DeleteTag(tag) => before.value - {tag}
            case _ => before.value)
  {
    assert DiagramTags(Edited(t, edit), id.uuid) == DiagramTags(t, id.uuid);
  }

  /** A device takes its tags with it. */
  lemma DeviceEditsMove(t: Tables, edit: Edit, id: Id)
    requires Succeeds(t, edit) && (edit.ChangeDevice? || edit.AssignDevice? || edit.DeleteDevice?)
    ensures MembersOf(Edited(t, edit), DiagramTopic(id)) == MembersOf(t, DiagramTopic(id))
    ensures var before, after := MembersOf(t, ObjectTopic(id)), MembersOf(Edited(t, edit), ObjectTopic(id));
      && (before.Some? <==> after.Some?)
      && (before.Some? ==>
            after.value ==
            match edit
            case AssignDevice(device, objectID) =>
              if objectID == Some(id.uuid) then before.value + TagsOn(t, device) else before.value - TagsOn(t, device)
            case DeleteDevice(device) => before.value - TagsOn(t, device)
            case _ => before.value)
  {
    assert DiagramTags(Edited(t, edit), id.uuid) == DiagramTags(t, id.uuid);
  }

  /** A new device has no tags yet, as long as tags belong to devices that exist. */
  lemma NewDeviceIsEmpty(t: Tables, device: Uuid, objectID: Option<Uuid>, topic: Topic)
    requires Succeeds(t, CreateDevice(device, objectID)) && forall g :: g in t.tags ==> t.tags[g].deviceID in t.devices
    ensures MembersOf(Edited(t, CreateDevice(device, objectID)), topic) == MembersOf(t, topic)
  {
    if topic.ObjectTopic? {
      assert ObjectTags(Edited(t, CreateDevice(device, objectID)), topic.id.uuid) == ObjectTags(t, topic.id.uuid);
    } else if topic.DiagramTopic? {
      assert DiagramTags(Edited(t, CreateDevice(device, objectID)), topic.id.uuid) == DiagramTags(t, topic.id.uuid);
    }
  }

  /** Figures bring their tags to their own diagram, and a bulk upsert leaves it those that it lists; nothing else changes. */
  lemma FigureEditsMove(t: Tables, edit: Edit, id: Id)
    requires Succeeds(t, edit) && (edit.CreateFigures? || edit.BulkUpsertFigures?)
    ensures MembersOf(Edited(t, edit), ObjectTopic(id)) == MembersOf(t, ObjectTopic(id))
    ensures var before, after := MembersOf(t, DiagramTopic(id)), MembersOf(Edited(t, edit), DiagramTopic(id));
      && (before.Some? <==> after.Some?)
      && (before.Some? ==>
            after.value ==
            if edit.diagramID != id.uuid then before.value
            else if edit.CreateFigures? then before.value + Shown(edit.created)
            else Shown(edit.created) + Shown(edit.updated))
  {
    var r := Edited(t, edit);
    assert ObjectTags(r, id.uuid) == ObjectTags(t, id.uuid);
    if edit.diagramID != id.uuid {
      OtherDiagramStays(t, edit, id.uuid);
    } else if edit.CreateFigures? {
      FiguresAdded(t, edit.diagramID, edit.created);
    } else {
      FiguresReplaced(t, edit.diagramID, edit.created, edit.updated);
    }
  }

  lemma OtherDiagramStays(t: Tables, edit: Edit, diagram: Uuid)
    requires Succeeds(t, edit) && (edit.CreateFigures? || edit.BulkUpsertFigures?) && edit.diagramID != diagram
    ensures DiagramTags(Edited(t, edit), diagram) == DiagramTags(t, diagram)
  {
    var r := Edited(t, edit);
    forall tag | tag in DiagramTags(t, diagram)
      ensures tag in DiagramTags(r, diagram)
    {
      var f :| f in t.figures && t.figures[f].live && t.figures[f].diagramID == diagram && t.figures[f].tagID == Some(tag);
      assert r.figures[f] == t.figures[f];
    }
    forall tag | tag in DiagramTags(r, diagram)
      ensures tag in DiagramTags(t, diagram)
    {
      var f :| f in r.figures && r.figures[f].live && r.figures[f].diagramID == diagram && r.figures[f].tagID == Some(tag);
      assert f in t.figures && t.figures[f] == r.figures[f];
    }
  }

  lemma FiguresAdded(t: Tables, diagram: Uuid, created: map<Uuid, Option<Uuid>>)
    requires Succeeds(t, CreateFigures(diagram, created))
    ensures DiagramTags(Edited(t, CreateFigures(diagram, created)), diagram) == DiagramTags(t, diagram) + Shown(created)
  {
    var r := Edited(t, CreateFigures(diagram, created));
    forall tag | tag in DiagramTags(t, diagram) + Shown(created)
      ensures tag in DiagramTags(r, diagram)
    {
      if f :| f in created && created[f] == Some(tag) {
        assert r.figures[f] == Figure(diagram, Some(tag), true);
      } else {
        var f :| f in t.figures && t.figures[f].live && t.figures[f].diagramID == diagram && t.figures[f].tagID == Some(tag);
        assert r.figures[f] == t.figures[f];
      }
    }
  }

  lemma FiguresReplaced(t: Tables, diagram: Uuid, created: map<Uuid, Option<Uuid>>, updated: map<Uuid, Option<Uuid>>)
    requires Succeeds(t, BulkUpsertFigures(diagram, created, updated))
    ensures DiagramTags(Edited(t, BulkUpsertFigures(diagram, created, updated)), diagram) == Shown(created) + Shown(updated)
  {
    var r := Edited(t, BulkUpsertFigures(diagram, created, updated));
    forall tag | tag in Shown(created) + Shown(updated)
      ensures tag in DiagramTags(r, diagram)
    {
      if f :| f in created && created[f] == Some(tag) {
        assert r.figures[f] == Figure(diagram, Some(tag), true);
      } else {
        var f :| f in updated && updated[f] == Some(tag);
        assert f in FiguresOf(t, diagram) && r.figures[f] == Figure(diagram, Some(tag), true);
      }
    }
    forall tag | tag in DiagramTags(r, diagram)
      ensures tag in Shown(created) + Shown(updated)
    {
      var f :| f in r.figures && r.figures[f].live && r.figures[f].diagramID == diagram && r.figures[f].tagID == Some(tag);
      assert f in created || f in updated;
    }
  }

  /** A deleted figure takes its tag from its diagram unless another live figure shows it. */
  lemma DeletedFigureMoves(t: Tables, figure: Id, topic: Topic, tag: Uuid)
    requires Succeeds(t, DeleteFigure(figure)) && MembersOf(t, topic).Some?
    ensures var after := MembersOf(Edited(t, DeleteFigure(figure)), topic);
      after.Some? && (tag in after.value <==>
        tag in MembersOf(t, topic).value
        && (topic.DiagramTopic? ==>
              exists f :: f in t.figures && f != figure.uuid && t.figures[f] == Figure(topic.id.uuid, Some(tag), true)))
  {
    var r := Edited(t, DeleteFigure(figure));
    if topic.DiagramTopic? {
      MemberIff(t, topic.id, tag);
      MemberIff(r, topic.id, tag);
      assert forall f :: f in t.figures && f != figure.uuid ==> r.figures[f] == t.figures[f];
    } else {
      assert ObjectTags(r, topic.id.uuid) == ObjectTags(t, topic.id.uuid);
    }
  }

  /** A deleted diagram, and a deleted object with its diagrams, is missing afterwards; every other topic keeps its members. */
  lemma DeletionsMove(t: Tables, edit: Edit, topic: Topic)
    requires Succeeds(t, edit) && (edit.DeleteDiagram? || edit.DeleteObject?)
    ensures MembersOf(Edited(t, edit), topic) ==
      if edit.DeleteDiagram? && topic.DiagramTopic? && topic.id.uuid == edit.diagram.uuid then None
      else if edit.DeleteObject? && topic.ObjectTopic? && topic.id.uuid == edit.monitored.uuid then None
      else if edit.DeleteObject? && topic.DiagramTopic? && topic.id.uuid in t.diagrams
              && t.diagrams[topic.id.uuid].objectID == edit.monitored.uuid then None
      else MembersOf(t, topic)
  {
    var r := Edited(t, edit);
    if topic.ObjectTopic? && !(edit.DeleteObject? && topic.id.uuid == edit.monitored.uuid) {
      assert ObjectTags(r, topic.id.uuid) == ObjectTags(t, topic.id.uuid);
    }
    if topic.DiagramTopic? && MembersOf(r, topic).Some? {
      KeptDiagramStays(t, edit, topic.id.uuid);
    }
  }

  lemma KeptDiagramStays(t: Tables, edit: Edit, diagram: Uuid)
    requires Succeeds(t, edit) && (edit.DeleteDiagram? || edit.DeleteObject?)
    requires diagram in Edited(t, edit).diagrams && Edited(t, edit).diagrams[diagram].live
    ensures DiagramTags(Edited(t, edit), diagram) == DiagramTags(t, diagram)
  {
    var r := Edited(t, edit);
    forall f | f in t.figures && t.figures[f].diagramID == diagram
      ensures r.figures[f] == t.figures[f]
    {
    }
    forall tag | tag in DiagramTags(t, diagram)
      ensures tag in DiagramTags(r, diagram)
    {
      var f :| f in t.figures && t.figures[f].live && t.figures[f].diagramID == diagram && t.figures[f].tagID == Some(tag);
      assert r.figures[f] == t.figures[f];
    }
  }

  // ---- which edits say what they change ------------------------------------------------------------------------

  /** The edits whose events name a topic that they change: those that delete a tag, or the topic's own diagram or object under the same
    * text. */
  predicate NamesWhatChanges(edit: Edit, topic: Topic) {
    || edit.DeleteTag?
    || (edit.DeleteDiagram? && topic == DiagramTopic(edit.diagram))
    || (edit.DeleteObject? && topic == ObjectTopic(edit.monitored))
  }

  lemma ToldByOne(e: Event, topic: Topic, list: seq<Uuid>)
    ensures Told(multiset{e}, topic, list) <==> Names(e, topic, list)
  {
    assert e in multiset{e};
  }

  /** Figure and device events address no topic. */
  lemma BareEventsAreMute(t: Tables, edit: Edit, topic: Topic, list: seq<Uuid>)
    requires forall e :: e in Published(t, edit) ==> e.entity.FigureEntity? || e.entity.DeviceEntity?
    ensures !Told(Published(t, edit), topic, list)
  {
  }

  /** Whatever the tables, an edit that changes a topic's members publishes an event that drops their list from the cache exactly when it
    * is one of those. */
  lemma ToldIff(limit: nat, t: Tables, edit: Edit, topic: Topic, list: seq<Uuid>)
    requires Succeeds(t, edit) && Fresh(limit, t, topic) == Resolved(list) && Fresh(limit, Edited(t, edit), topic) != Resolved(list)
    ensures Told(Published(t, edit), topic, list) <==> NamesWhatChanges(edit, topic)
  {
    hide Fresh, Told;
    match edit
    case DeleteObject(o) => ToldByOne(Bare(ObjectEntity, o), topic, list);
    case DeleteDiagram(d) => ToldByOne(Bare(DiagramEntity, d), topic, list);
    case CreateTag(tag, _) =>
      ToldByOne(Bare(TagEntity, Plain(tag)), topic, list);
      TagsSpareDiagrams(limit, t, edit, topic);
      assert topic.ObjectTopic?;
      NewTagIsNotListed(limit, t, tag, topic, list);
    case ChangeTag(_) =>
    case DeleteTag(tag) =>
      ToldByOne(Bare(TagEntity, Plain(tag)), topic, list);
      TagsSpareDiagrams(limit, t, edit, topic);
      assert topic.ObjectTopic?;
      if tag !in list {
        UnlistedTagIsNotMissed(limit, t, tag, topic, list);
      }
    case _ => BareEventsAreMute(t, edit, topic, list);
  }

  /** Any of an edit's events may fail to be sent. */
  lemma SentTellsIff(limit: nat, t: Tables, edit: Edit, sent: multiset<Event>, topic: Topic, list: seq<Uuid>)
    requires Succeeds(t, edit) && Fresh(limit, t, topic) == Resolved(list) && Fresh(limit, Edited(t, edit), topic) != Resolved(list)
    requires sent <= Published(t, edit)
    ensures Told(sent, topic, list) <==> NamesWhatChanges(edit, topic) && sent == Published(t, edit)
  {
    ToldIff(limit, t, edit, topic, list);
    hide Fresh, Edited, Names;
    if e :| e in sent && Names(e, topic, list) {
      assert e in Published(t, edit);
      assert sent == Published(t, edit);
    }
  }

  lemma TagsSpareDiagrams(limit: nat, t: Tables, edit: Edit, topic: Topic)
    requires Succeeds(t, edit) && (edit.CreateTag? || edit.DeleteTag?)
    ensures Edited(t, edit).objects == t.objects
    ensures !topic.ObjectTopic? ==> Fresh(limit, Edited(t, edit), topic) == Fresh(limit, t, topic)
  {
    if topic.DiagramTopic? {
      assert DiagramTags(Edited(t, edit), topic.id.uuid) == DiagramTags(t, topic.id.uuid);
    }
  }

  lemma NewTagIsNotListed(limit: nat, t: Tables, tag: Uuid, topic: Topic, list: seq<Uuid>)
    requires topic.ObjectTopic? && tag !in t.tags && Fresh(limit, t, topic) == Resolved(list)
    ensures tag !in list
  {
    var s := ObjectTags(t, topic.id.uuid);
    DistinctFacts(Ascending(s));
    assert tag !in ToSet(Distinct(Ascending(s)));
  }

  lemma UnlistedTagIsNotMissed(limit: nat, t: Tables, tag: Uuid, topic: Topic, list: seq<Uuid>)
    requires topic.ObjectTopic? && Succeeds(t, DeleteTag(tag)) && Fresh(limit, t, topic) == Resolved(list) && tag !in list
    ensures Fresh(limit, Edited(t, DeleteTag(tag)), topic) == Resolved(list)
  {
    hide Ascending, Distinct;
    var s := ObjectTags(t, topic.id.uuid);
    WithoutUnlisted(s, tag);
    TagLeavesObject(t, tag, topic.id.uuid);
  }

  lemma TagLeavesObject(t: Tables, tag: Uuid, objectID: Uuid)
    requires TagIsLive(t, tag)
    ensures ObjectTags(Edited(t, DeleteTag(tag)), objectID) == ObjectTags(t, objectID) - {tag}
  {
  }

  lemma WithoutUnlisted(s: set<Uuid>, tag: Uuid)
    requires tag !in Distinct(Ascending(s))
    ensures Distinct(Ascending(s - {tag})) == Distinct(Ascending(s)) && |s - {tag}| <= |s|
  {
    DistinctFacts(Ascending(s));
    if tag in s {
      assert tag !in ToSet(Distinct(Ascending(s)));
      NilIsNotListed(s);
    } else {
      assert s - {tag} == s;
    }
  }

  lemma {:induction false} DistinctWithoutNil(list: seq<Uuid>)
    ensures Distinct([NIL_UUID] + list) == Distinct(list)
  {
    if list != [] {
      var front, last := list[..|list| - 1], list[|list| - 1];
      DistinctWithoutNil(front);
      assert ([NIL_UUID] + list)[..|list|] == [NIL_UUID] + front;
    }
  }

  lemma NilIsNotListed(s: set<Uuid>)
    requires NIL_UUID in s
    ensures Distinct(Ascending(s)) == Distinct(Ascending(s - {NIL_UUID})) && |s - {NIL_UUID}| < |s|
  {
    assert Least(s) == NIL_UUID;
    DistinctWithoutNil(Ascending(s - {NIL_UUID}));
  }
}
