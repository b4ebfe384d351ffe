/** The subscription state of the realtime hub as a value, and what each lock-held section does to it. */
module HubModel {
  import opened Common
  import opened SetIndex
  import opened Uuids

  type Connection = nat
  type Topic = string
  type User = string

  /** What one connection is subscribed to. */
  datatype Groups = Groups(
    directTags: set<Uuid>,
    groupedTopics: map<Topic, set<Uuid>>,
    tagRefs: map<Uuid, int>)

  const NO_GROUPS := Groups({}, map[], map[])

  datatype State = State(
    subscriptions: map<Uuid, set<Connection>>,
    connectionSubscriptions: map<Connection, set<Uuid>>,
    connectionGroups: map<Connection, Groups>,
    groupTopicSubscribers: map<Topic, set<Connection>>,
    alarmsSubscribers: set<Connection>,
    connectionsByUser: map<User, seq<Connection>>)

  const EMPTY_HUB := State(map[], map[], map[], map[], {}, map[])

  function RefCount(refs: map<Uuid, int>, t: Uuid): int {
    if t in refs then refs[t] else 0
  }

  function GroupsOf(s: State, c: Connection): Groups {
    if c in s.connectionGroups then s.connectionGroups[c] else NO_GROUPS
  }

  // ---- reference counting ------------------------------------------------------------------

  function Incremented(refs: map<Uuid, int>, tags: set<Uuid>): map<Uuid, int> {
    map t | t in refs.Keys + tags :: RefCount(refs, t) + if t in tags then 1 else 0
  }

  function Decremented(refs: map<Uuid, int>, tags: set<Uuid>): map<Uuid, int> {
    map t | t in refs && (t in tags ==> refs[t] > 1) :: if t in tags then refs[t] - 1 else refs[t]
  }

  /** The tags a decrement of `tags` releases altogether. */
  function Released(refs: map<Uuid, int>, tags: set<Uuid>): set<Uuid> {
    set t | t in tags && t in refs && refs[t] <= 1
  }

  // ---- the per-connection limit --------------------------------------------------------------

  /** How many entries of the list would become new references. */
  function CountNew(refs: map<Uuid, int>, tags: seq<Uuid>): nat {
    if tags == [] then 0
    else (if tags[0] != NIL_UUID && RefCount(refs, tags[0]) <= 0 then 1 else 0) + CountNew(refs, tags[1..])
  }

  predicate ExceedsLimit(limit: int, refs: map<Uuid, int>, tags: seq<Uuid>) {
    limit > 0 && |refs| + CountNew(refs, tags) > limit
  }

  // ---- one function per lock-held section ------------------------------------------------------

  function Register(s: State, c: Connection, user: User, maxPerUser: int): State {
    var fresh0 := s.(connectionSubscriptions := s.connectionSubscriptions[c := {}],
                     connectionGroups := s.connectionGroups[c := NO_GROUPS]);
    if user == "" then fresh0
    else
      var mine := (if user in s.connectionsByUser then s.connectionsByUser[user] else []) + [c];
      fresh0.(connectionsByUser :=
        s.connectionsByUser[user := if maxPerUser > 0 && |mine| > maxPerUser then mine[1..] else mine])
  }

  /** The oldest of the user's connections when the newest one makes them too many. */
  function Displaced(byUser: map<User, seq<Connection>>, c: Connection, user: User, maxPerUser: int): Option<Connection> {
    var mine := (if user in byUser then byUser[user] else []) + [c];
    if user != "" && maxPerUser > 0 && |mine| > maxPerUser then Some(mine[0]) else None
  }

  function ForgetUser(byUser: map<User, seq<Connection>>, c: Connection, user: User): map<User, seq<Connection>> {
    if user == "" || user !in byUser then byUser
    else
      var rest := Without(byUser[user], c);
      if rest == [] && byUser[user] != [] then byUser - {user} else byUser[user := rest]
  }

  function Unregister(s: State, c: Connection, user: User): State {
    var g := GroupsOf(s, c);
    State(
      UnlinkAll(s.subscriptions, g.tagRefs.Keys, c),
      s.connectionSubscriptions - {c},
      s.connectionGroups - {c},
      UnlinkAll(s.groupTopicSubscribers, g.groupedTopics.Keys, c),
      s.alarmsSubscribers - {c},
      ForgetUser(s.connectionsByUser, c, user))
  }

  /** Connection c's record becomes g, and the four indexes follow it. */
  function Adopt(s: State, c: Connection, g: Groups): State {
    var was := GroupsOf(s, c);
    s.(connectionGroups := s.connectionGroups[c := g],
       connectionSubscriptions := s.connectionSubscriptions[c := g.tagRefs.Keys],
       subscriptions := UnlinkAll(
         LinkAll(s.subscriptions, g.tagRefs.Keys - was.tagRefs.Keys, c), was.tagRefs.Keys - g.tagRefs.Keys, c),
       groupTopicSubscribers := UnlinkAll(
         LinkAll(s.groupTopicSubscribers, g.groupedTopics.Keys - was.groupedTopics.Keys, c),
         was.groupedTopics.Keys - g.groupedTopics.Keys, c))
  }

  function WithDirect(g: Groups, t: Uuid, limit: int): Groups {
    if t in g.directTags || ExceedsLimit(limit, g.tagRefs, [t]) then g
    else g.(directTags := g.directTags + {t}, tagRefs := Incremented(g.tagRefs, {t} - {NIL_UUID}))
  }

  /** A subscribe on an unknown connection creates its empty record first. */
  function SubscribeDirect(s: State, c: Connection, t: Uuid, limit: int): State {
    Adopt(s, c, WithDirect(GroupsOf(s, c), t, limit))
  }

  function WithTopic(g: Groups, topic: Topic, resolved: seq<Uuid>, limit: int): Groups {
    if topic in g.groupedTopics || ExceedsLimit(limit, g.tagRefs, resolved) then g
    else g.(groupedTopics := g.groupedTopics[topic := ToSet(resolved)],
            tagRefs := Incremented(g.tagRefs, ToSet(resolved) - {NIL_UUID}))
  }

  /** The second half of a group subscription: the topic was resolved, to anything at all, outside the lock. */
  function CommitGroup(s: State, c: Connection, topic: Topic, resolved: seq<Uuid>, limit: int): State {
    Adopt(s, c, WithTopic(GroupsOf(s, c), topic, resolved, limit))
  }

  function WithoutDirect(g: Groups, t: Uuid): Groups {
    if t !in g.directTags then g
    else g.(directTags := g.directTags - {t}, tagRefs := Decremented(g.tagRefs, {t} - {NIL_UUID}))
  }

  function UnsubscribeDirect(s: State, c: Connection, t: Uuid): State {
    if c !in s.connectionGroups then s else Adopt(s, c, WithoutDirect(s.connectionGroups[c], t))
  }

  function WithoutTopic(g: Groups, topic: Topic): Groups {
    if topic !in g.groupedTopics then g
    else g.(groupedTopics := g.groupedTopics - {topic},
            tagRefs := Decremented(g.tagRefs, g.groupedTopics[topic] - {NIL_UUID}))
  }

  /** An unsubscribe from a group topic; also what reconciliation does when the topic no longer resolves. */
  function LeaveGroup(s: State, c: Connection, topic: Topic): State {
    if c !in s.connectionGroups then s else Adopt(s, c, WithoutTopic(s.connectionGroups[c], topic))
  }

  /** What deleting tag t leaves of one subscriber's record: every owner of t goes, one reference is dropped. */
  function Deleted(g: Groups, t: Uuid): Groups {
    Groups(
      g.directTags - {t},
      map topic | topic in g.groupedTopics && (t in g.groupedTopics[topic] ==> g.groupedTopics[topic] - {t} != {})
        :: g.groupedTopics[topic] - {t},
      Decremented(g.tagRefs, {t}))
  }

  /** Tag t deleted for the subscribers in cs, one after the other. */
  function DeleteTagFor(s: State, t: Uuid, cs: seq<Connection>): State {
    if cs == [] then s
    else
      var before := DeleteTagFor(s, t, cs[..|cs| - 1]);
      Adopt(before, cs[|cs| - 1], Deleted(GroupsOf(before, cs[|cs| - 1]), t))
  }

  /** A topic's new membership in one subscriber's record: `kept` is the part of the new tags that fits the limit. */
  function Retargeted(g: Groups, topic: Topic, resolved: set<Uuid>, kept: set<Uuid>): Groups
    requires topic in g.groupedTopics
  {
    g.(groupedTopics := g.groupedTopics[topic := resolved],
       tagRefs := Incremented(Decremented(g.tagRefs, g.groupedTopics[topic] - resolved - {NIL_UUID}), kept - {NIL_UUID}))
  }

  function Retarget(s: State, c: Connection, topic: Topic, resolved: set<Uuid>, kept: set<Uuid>): State {
    if c !in s.connectionGroups || topic !in s.connectionGroups[c].groupedTopics then s
    else Adopt(s, c, Retargeted(s.connectionGroups[c], topic, resolved, kept))
  }

  /** The tags that are new to the topic. */
  function NewMembers(g: Groups, topic: Topic, resolved: set<Uuid>): set<Uuid>
    requires topic in g.groupedTopics
  {
    resolved - g.groupedTopics[topic]
  }

  /** How many of a set of tags have no reference yet. */
  function Unreferenced(refs: map<Uuid, int>, tags: set<Uuid>): set<Uuid> {
    set t | t in tags && t != NIL_UUID && RefCount(refs, t) <= 0
  }

  /** The branch in which reconciliation has to cut the new tags down to the connection's limit. */
  predicate TrimsAt(limit: int, g: Groups, topic: Topic, resolved: set<Uuid>)
    requires topic in g.groupedTopics
  {
    limit > 0 && |g.tagRefs| + |Unreferenced(g.tagRefs, NewMembers(g, topic, resolved))| > limit
  }

  function Available(limit: int, refs: map<Uuid, int>): nat {
    if limit - |refs| < 0 then 0 else limit - |refs|
  }

  /** The choices a reconciliation has: everything when it fits, else any `Available` of the new tags. */
  predicate Keeps(limit: int, g: Groups, topic: Topic, resolved: set<Uuid>, kept: set<Uuid>)
    requires topic in g.groupedTopics
  {
    var added := NewMembers(g, topic, resolved);
    if TrimsAt(limit, g, topic, resolved) then kept <= added && |kept| == Available(limit, g.tagRefs)
    else kept == added
  }
}
