# Controlitix, modelled in Dafny

This project models the stateful core of Controlitix, a SCADA system written in Go, and proves what that core keeps over whole runs.
Most components appear twice: as functions on values, over which the run theorems are proved, and as a class whose methods
change maps, sequences and objects in place as the Go code does and are proved equal to those functions.

| component | files |
|---|---|
| Realtime hub of ms-viewer: reference-counted subscriptions | `HubModel`, `HubInvariants`, `HubCounts`, `HubRuns`, `HubLosses`, `HubUsers`, `HubOwners`, `Hub` |
| Debouncer and topic membership cache of ms-viewer, with the edits of ms-editor that change memberships | `DebouncerModel`, `Debouncer`, `MembershipCache`, `EditorModel`, `MembershipRuns`, `MembershipWitness` |
| Alarm evaluation, alarm log and buffered ingest of ms-viewer | `AlarmEvaluator`, `AlarmLog`, `AlarmRaces`, `AlarmUseCase`, `IngestModel`, `Ingest` |
| Copy-on-write snapshot store of ms-poll | `DeviceIndex`, `Snapshots`, `SnapshotStore`, `SnapshotRuns` |
| Device scheduler of ms-poll and its workers | `SchedulerModel`, `SchedulerSafety`, `SchedulerConvergence`, `SchedulerLimits`, `SchedulerProgress`, `SchedulerWitness`, `Scheduler` |
| Value normalisation of ms-poll | `Normalize`, `NormalizeAnswers` |
| Refresh tokens and administration of ms-auth | `AuthModel`, `RefreshFamilies`, `AdminSafety`, `AdminGuards`, `AuthServices`, `RotationRaces`, `RevocationRaces`, `AdminRaces` |
| Login limiter and password string of ms-auth | `LoginLimiter`, `Text`, `TextAnswers`, `Argon2` |

`Common` and `Uuids` hold what several of them share.

## Conventions

A section that holds a lock is one atomic step. Topic resolution happens outside the hub's lock, so its answer is arbitrary and
the commit is a step of its own; a reconciliation is one step per subscriber. A resolve of the membership cache is a lookup,
perhaps the removal of an expired entry, the question to the repository and a fill, and anything may come between; an edit changes
the tables and sends its events, any of which may get lost, and events are handled in any order. In `AlarmLog` a whole ingestion
is a step, and `AlarmRaces` takes it apart into its three store calls. In `RefreshFamilies` and `AdminSafety` one whole call of an
ms-auth service is a step, and a login is two of them, authenticating and issuing; `RotationRaces` and `RevocationRaces` take a
rotation apart into its repository calls, and `AdminRaces` the removal of an admin into its guard and its write. In each of these
a call that nothing interrupts is proved to be the whole call (`UninterruptedIsWhole`). The scheduler and its workers are just as
fine: reading the store, registering a worker, each wait, and each stage of a worker goroutine are separate steps. Go maps and
slices that are changed in place or shared are objects: the snapshot store's maps and slices have identities, and only fresh ones
are written. Time is an integer that does not go back, a float is a real number, ids, strings and payloads are opaque. A call into
the database may fail at any point: the call that fails is a parameter, and those after it are not made. Random draws are
arbitrary values not drawn before. The key derivation function, float parsing and formatting are parameters.

## Where the code does not do what it is for

Several of the intended properties hold only under a condition. Each is proved with that condition in both directions, and a run
from the beginning, or a concrete input, shows that it is broken.

- Reference counts go wrong when a reconciliation is cut down by the subscription limit, since the whole resolved set is stored, and
  when a deleted tag was held more than once, since one reference is dropped whatever the count (`HubRuns.RunsAreExactIff`,
  `HubLosses.FullConnectionIsReached`, `HubLosses.HeldTwiceIsReached`).
- After such a trim, leaving the topic releases a reference that another owner was owed, and a connection can lose a tag to which it
  still subscribes directly (`HubLosses.RunsDeliverIff`, `HubLosses.TrimStarvesDirectSubscription`).
- A resolve that was overtaken by an invalidation remembers the old members for a whole lifetime (`MembershipRuns.RunsUpToDateIff`,
  `MembershipWitness.OldAnswerIsServed`).
- The handler looks for a diagram in a figure's payload and for an object at the top level of a device's, and the editor puts neither
  there; the event of a new tag names a tag that no cached list holds yet; figures are also created without an event, and an object's
  diagrams are deleted with no event but the object's; an id may be written in another form than the topic's. All these leave members
  outdated for a whole lifetime (`EditorModel.ToldIff`, `MembershipRuns.RunsUpToDateIff`, `MembershipWitness.DeletedFigureIsServed`,
  `MembershipWitness.CreatedTagIsMissed`).
- With both high thresholds set, hysteresis is measured from the upper one, so the lower one usually has none
  (`AlarmEvaluator.BothHighThresholds`, `AlarmEvaluator.OrdinarySetpointsChatter`).
- The first alarm row of a tag is stored before its transition. If the second call fails the transition is never logged and no retry
  notices (`AlarmLog.RetryRepairsIff`, `AlarmLog.TornRunLosesAlarm`).
- Neither writing call of an ingestion looks at the row again, so an ingestion of the communication-loss scanner, or a deletion, that
  comes between the read and the write of another leaves a log that does not chain, or a row that contradicts it
  (`AlarmRaces.RunsTruthfulIff`, `AlarmRaces.BothLeaveOK`, `AlarmRaces.OldStateIsStored`, `AlarmRaces.ClearsAfterDeletion`).
- One upsert statement may not touch a row twice. PostgreSQL refuses it, so two buffered values of one tag within the same microsecond
  stop ingestion for good (`IngestModel.ConflictBlocksForever`, `IngestModel.ConflictIsReached`).
- The event of a tag upsert names the new device only, and a full event queue drops events. Either leaves a worker on an old
  configuration until the next change (`SchedulerLimits.RunsConvergeIff`, `SchedulerLimits.MoveKeepsIff`,
  `SchedulerLimits.DropKeepsIff`, `SchedulerLimits.StaleStays`, `SchedulerWitness.MoveIsReached`, `SchedulerWitness.DropIsReached`).
- A deactivation that fails after the user row is written leaves sessions behind, and deactivating again does nothing
  (`AdminSafety.RunsKeepSessionsIff`, `AdminSafety.RetryDoesNotRepair`, `AdminSafety.HalfDeactivationIsReached`).
- A deactivation that succeeds between the two calls of a login leaves the user with a session all the same
  (`AdminSafety.RunsKeepSessionsIff`, `AdminSafety.LoginOutlivesDeactivation`).
- Marking a refresh token does not test whether it was marked before, so two rotations of one token at the same moment both succeed
  (`RotationRaces.RunsExclusiveIff`, `RotationRaces.RaceIsReached`).
- A rotation on its way outlives the revocation of its family and the deactivation of its user: its last call inserts an unrevoked token
  all the same (`RevocationRaces.RunsDeadIff`, `RevocationRaces.RevokedFamilyRevives`, `RevocationRaces.RunsSessionsIff`,
  `RevocationRaces.DeactivatedUserKeepsSession`).
- Nothing keeps the count of other admins true until the write, so two admins can remove each other
  (`AdminRaces.RunsSafeIff`, `AdminRaces.AdminsRemoveEachOther`).
- A debounce callback that runs late, after its timer was set again, sends too early (`DebouncerModel.LateCallbackBreaksSpacing`).

Refresh token rotation with reuse detection is the scheme of section 4.14.2 of RFC 9700, Argon2 is RFC 9106, and the unpadded base64
alphabet is section 4 of RFC 4648 with the omission of padding allowed by its section 3.2.

## Model

| member | source | states |
|---|---|---|
| `HubRuns.RunsAreExactIff` | ms-viewer/internal/realtime/hub.go:625-736 | Over a whole run of any sections on any connections, every reference count equals one for a direct tag plus one per grouped topic holding it, if and only if no step trims a reconciliation or deletes a tag held more than once by a subscriber |
| `HubRuns.NextExactIff` | ms-viewer/internal/realtime/hub.go:582-736 | From exact counts one section reaches exact counts precisely when it is not one of those two |
| `HubRuns.RunsAreConsistent` | ms-viewer/internal/realtime/hub.go:253-323 | In every state of every run the tag, topic, own and reference indexes agree, no empty set is stored, counts are at least one, no connection exceeds a positive subscription limit, and user lists hold only that user's connections within their cap |
| `HubCounts.RetargetExactIff` | ms-viewer/internal/realtime/hub.go:695-718 | A reconciliation of one subscriber keeps counts exact precisely when the limit does not make it trim |
| `HubCounts.DeletesTagExactIff` | ms-viewer/internal/realtime/hub.go:582-623 | Deleting a tag keeps counts exact precisely when no subscriber holds more than one reference to it |
| `HubCounts.RetargetWithinLimit` | ms-viewer/internal/realtime/hub.go:695-712 | Reconciliation stays within the limit although it trims before the departed tags are released |
| `HubCounts.SubscribesWithinLimit` | ms-viewer/internal/realtime/hub.go:253-323 | Subscribing to a tag or committing a resolved topic never exceeds a positive limit, whatever was resolved outside the lock |
| `HubCounts.NewTagsCounted` | ms-viewer/internal/realtime/hub.go:750-770 | The list count that the limit check makes is never below the number of references that really become new |
| `HubCounts.NewTagsCountedExactly` | ms-viewer/internal/realtime/hub.go:750-770 | On a duplicate-free list that count is the number of references that become new |
| `HubCounts.TrimCutsSomething` | ms-viewer/internal/realtime/hub.go:695-718 | Whenever reconciliation trims, some resolved tag is stored in the topic without the reference it is owed |
| `HubInvariants.IndexesDetermined` | ms-viewer/internal/realtime/hub.go:582-736 | The four indexes are mutually redundant: two consistent hubs with equal records are equal in every index |
| `HubInvariants.RegisterKeepsIndexes` | ms-viewer/internal/realtime/hub.go:104-131 | Registering keeps the indexes in agreement exactly for a connection that holds nothing |
| `HubInvariants.UnregisterKeepsIndexes` | ms-viewer/internal/realtime/hub.go:133-174 | Unregistering keeps the indexes in agreement |
| `HubInvariants.DeleteTagForAll` | ms-viewer/internal/realtime/hub.go:582-623 | In whatever order the subscribers of a tag are visited, each one's record loses it and the indexes agree afterwards |
| `HubInvariants.DeletionIsDetermined` | ms-viewer/internal/realtime/hub.go:582-623 | The order in which the subscribers are visited makes no difference to the hub |
| `HubRuns.UnregisterLeavesNoTrace` | ms-viewer/internal/realtime/hub.go:133-174 | After unregistering, the connection occurs in none of the indexes, the alarm subscribers or the user lists |
| `HubRuns.OthersUntouched` | ms-viewer/internal/realtime/hub.go:253-414 | Every section but a tag deletion leaves all other connections' records and links as they were |
| `HubUsers.RunsListUsers` | ms-viewer/internal/realtime/hub.go:104-174 | In every state of every run a user's list of connections is exactly those that were registered and since neither unregistered nor displaced, in order of registration, where a registration at the cap displaces the oldest of them |
| `HubUsers.RunsDisplaceOldest` | ms-viewer/internal/realtime/hub.go:121-128 | The connection that a registration returns to be closed is the oldest of those, and there is one exactly when the user already has as many as the cap allows |
| `HubUsers.UnregisterLeavesOthers` | ms-viewer/internal/realtime/hub.go:154-169 | Unregistering a connection leaves every other entry of every user's list in place and in order |
| `HubOwners.DirectTagsNext` | ms-viewer/internal/realtime/hub.go:253-393 | A direct tag is held from the subscription that fits the limit to the unsubscription, the deletion of the tag or the end of the connection, whatever other section runs |
| `HubOwners.TopicMembersNext` | ms-viewer/internal/realtime/hub.go:270-414 | A topic is joined as a whole or not at all, follows every reconciliation, loses a deleted tag, and is left on request, when it no longer resolves, when it is emptied, or with the connection |
| `HubOwners.NewEntriesCounted` | ms-viewer/internal/realtime/hub.go:750-770 | The limit check counts the entries of the list for which there is no reference yet |
| `HubOwners.TrimFillsRoom` | ms-viewer/internal/realtime/hub.go:695-712 | A reconciliation that trims fills exactly the room that is left, with any of the new tags |
| `HubOwners.AlarmsNext` | ms-viewer/internal/realtime/hub.go:176-195 | A connection is told of alarms from the moment it asks until it takes that back or is unregistered |
| `HubOwners.EverySectionRuns` | ms-viewer/internal/realtime/hub.go:104-736 | No section has to wait: in every state whatever is asked of the hub is done by one of its steps |
| `HubOwners.SentIffAskedFor` | ms-viewer/internal/realtime/hub.go:772-830 | With exact counts a connection is sent exactly the tags it subscribes to directly or through a topic |
| `HubLosses.DeletedTagStaysSubscribed` | ms-viewer/internal/realtime/hub.go:616 | A subscriber that held a deleted tag more than once stays subscribed to it with no owner left to release it |
| `HubLosses.HeldTwiceIsReached` | ms-viewer/internal/realtime/hub.go:253-323 | From an empty hub two ordinary subscriptions reach a whole state in which one tag is held twice |
| `HubLosses.DeletingHeldTwiceIsInexact` | ms-viewer/internal/realtime/hub.go:616 | Deleting the tag in that state leaves its counts wrong |
| `HubLosses.FullConnectionIsReached` | ms-viewer/internal/realtime/hub.go:270-323 | One ordinary subscription fills a connection at a limit of one |
| `HubLosses.TrimmingIsInexact` | ms-viewer/internal/realtime/hub.go:695-718 | When that connection's topic gains a tag it is left owing it a reference |
| `HubLosses.RunsDeliverIff` | ms-viewer/internal/realtime/hub.go:395-414 | Over a whole run every direct subscription stays among the tag's subscribers in every state, if and only if no topic is left or retargeted that gives up a tag also subscribed to directly with one reference for both |
| `HubLosses.NextHoldsIff` | ms-viewer/internal/realtime/hub.go:798-810 | One step takes a tag away from a connection that subscribes to it directly precisely when it is of that kind |
| `HubLosses.ExactStarvesNobody` | ms-viewer/internal/realtime/hub.go:798-810 | With exact counts no step is of that kind, so it takes a trimmed reconciliation or a deletion before it |
| `HubLosses.TrimStarvesDirectSubscription` | ms-viewer/internal/realtime/hub.go:625-736 | From an empty hub six ordinary steps at a limit of two leave a connection subscribed directly to a tag that it is not sent |
| `Hub.Hub.constructor` | ms-viewer/internal/realtime/hub.go:76-102 | A new hub is empty and consistent |
| `Hub.Hub.RegisterConnection` | ms-viewer/internal/realtime/hub.go:104-131 | The whole new state of registration, the connection displaced by the per-user cap, and exactly when the hub stays consistent |
| `Hub.Hub.UnregisterConnection` | ms-viewer/internal/realtime/hub.go:133-174 | In place: the whole state after a connection is gone |
| `Hub.Hub.SubscribeDirectTag` | ms-viewer/internal/realtime/hub.go:253-268 | In place: the direct tag is held afterwards or the limit refused it, and the list returned is exactly the tags the connection came to hold |
| `Hub.Hub.CommitGroupTopic` | ms-viewer/internal/realtime/hub.go:270-323 | In place: a topic resolved earlier is joined or refused as a whole, and the list returned is exactly the tags the connection came to hold |
| `Hub.Hub.UnsubscribeDirectTag` | ms-viewer/internal/realtime/hub.go:378-393 | In place: the list returned is exactly the tags the connection holds no longer |
| `Hub.Hub.UnsubscribeGroupTopic` | ms-viewer/internal/realtime/hub.go:395-414 | In place: the connection leaves the topic's subscribers, and the list returned is exactly the tags it holds no longer |
| `Hub.Hub.UnsubscribeTagFromAll` | ms-viewer/internal/realtime/hub.go:582-623 | In place: every subscriber of the tag loses all its owners and one reference |
| `Hub.Hub.ReconcileConnection` | ms-viewer/internal/realtime/hub.go:625-736 | In place: one subscriber follows a topic's new members, with any choice of kept tags that the limit leaves, or loses the topic; the lists returned are exactly the tags it came to hold and those it holds no longer |
| `Hub.Hub.IncrementTagRefs` | ms-viewer/internal/realtime/hub.go:772-796 | Counts and both tag indexes change together; the result lists the tags that had no reference |
| `Hub.Hub.DecrementTagRefs` | ms-viewer/internal/realtime/hub.go:798-810 | Counts and both tag indexes change together; the result lists the tags that lost their last reference |
| `Hub.Hub.DecrementTagRefForSingle` | ms-viewer/internal/realtime/hub.go:812-830 | One reference less for one tag, and whether it was the last |
| `Hub.Hub.ExceedsSubscriptionLimit` | ms-viewer/internal/realtime/hub.go:750-770 | The loop decides the limit check, which counts duplicates in the list |
| `Hub.Hub.NewTagsWithinLimit` | ms-viewer/internal/realtime/hub.go:683-706 | The loop yields the new tags, or an arbitrary part of them that exactly fills the room left |
| `DebouncerModel.LivesAreGood` | ms-viewer/internal/realtime/debouncer.go:90-273 | In every life of a key: value sends at least the interval apart, a pending value has its flush timer due exactly one interval after the last send, the records that went out are published ones in order of publication, and the newest published one went out last or is pending |
| `DebouncerModel.WaitsAtMostOneInterval` | ms-viewer/internal/realtime/debouncer.go:105-123 | A value that is not sent at once is due within one interval |
| `DebouncerModel.FlushCatchesUp` | ms-viewer/internal/realtime/debouncer.go:219-246 | When nothing more is published the flush sends the newest published record and nothing stays pending |
| `DebouncerModel.BeatRepeatsLatest` | ms-viewer/internal/realtime/debouncer.go:248-273 | A heartbeat repeats the record heard last, one heartbeat interval after the key was last active, and is no value send |
| `DebouncerModel.FiredTimersAreOff` | ms-viewer/internal/realtime/debouncer.go:219-273 | A timer that has fired stays silent until it is set again |
| `DebouncerModel.CallbackKeepsSpacingIff` | ms-viewer/internal/realtime/debouncer.go:219-246 | A flush callback that runs at any moment keeps the spacing exactly when nothing is pending or the interval has passed |
| `DebouncerModel.LateCallbackBreaksSpacing` | ms-viewer/internal/realtime/debouncer.go:179-197 | A callback that fired for an earlier wait and runs after the timer was set again sends too early |
| `Debouncer.Debouncer.Publish` | ms-viewer/internal/realtime/debouncer.go:90-124 | In place: the state of the key alone changes, as the model says, and the value to send at once is returned |
| `Debouncer.Debouncer.FlushPending` | ms-viewer/internal/realtime/debouncer.go:219-246 | In place: a removed key does nothing; otherwise the pending value is sent |
| `Debouncer.Debouncer.EmitHeartbeat` | ms-viewer/internal/realtime/debouncer.go:248-273 | In place: the latest value is sent again and the heartbeat re-armed |
| `Debouncer.Debouncer.Touch` | ms-viewer/internal/realtime/debouncer.go:77-88 | In place: remembers the value for the heartbeat without sending |
| `Debouncer.Debouncer.StopConnection` | ms-viewer/internal/realtime/debouncer.go:137-155 | Removes exactly the keys of the connection |
| `MembershipRuns.RunsStayConsistent` | ms-viewer/internal/realtime/membership_cache.go:35-155 | In every state of every interleaving of lookups, removals of expired entries, repository answers, fills, edits and handled events, a topic is in the inverse index of a tag exactly when it is cached with that tag, no empty set is stored and lists are clean and within the limit |
| `MembershipModel.InvalidateByTagExact` | ms-viewer/internal/realtime/membership_cache.go:111-136 | Invalidation by tag names exactly the cached topics that contain the tag and leaves none |
| `MembershipRuns.AnswersAreClean` | ms-viewer/internal/realtime/topic_resolver.go:55-105 | In every interleaving every answer given is nil-free, duplicate-free and within the resolve limit, cached or not |
| `MembershipRuns.UninterruptedIsWhole` | ms-viewer/internal/realtime/topic_resolver.go:55-105 | The sections of one resolve right after one another, whether or not the repository fails, are the whole resolve |
| `MembershipRuns.EventsAreHandled` | ms-viewer/internal/realtime/topic_resolver.go:123-157 | Any event on its way can be handled, once or again |
| `MembershipRuns.RunsUpToDateIff` | ms-viewer/internal/realtime/topic_resolver.go:55-157 | Over any interleaving of resolves, edits of the editor's tables and handled events, every list that is cached or about to be is what the repository says now, or an event that drops it is on its way, in every state, if and only if no overtaken answer that has changed is remembered, and no edit changes such a list without being one that deletes a tag or the topic's own diagram or object under the same text, with its event sent, unless an earlier event on its way drops it |
| `MembershipRuns.NextUpToDateIff` | ms-viewer/internal/realtime/topic_resolver.go:55-157 | One step puts the cache out of date precisely when it is one of those two |
| `MembershipRuns.OvertakenByHandling` | ms-viewer/internal/realtime/topic_resolver.go:76-105 | An overtaken answer was waiting to be remembered when an event that would have dropped it was handled |
| `MembershipRuns.HitsAreCurrent` | ms-viewer/internal/realtime/topic_resolver.go:68-70 | In a run without those steps a hit on a list that no event on its way would drop is what the repository says at that moment |
| `EditorModel.ToldIff` | ms-viewer/internal/realtime/topic_resolver.go:123-157 | Whatever the tables, an edit that changes a topic's members publishes an event that drops their list exactly when it deletes a tag, or the topic's own diagram or object under the same text: figure and device events and the event of a new tag never do |
| `EditorModel.SentTellsIff` | ms-editor/internal/usecase/figure_usecase.go:194-243 | The same with any of the edit's events lost: then the one event must also have been sent |
| `MembershipWitness.DeletedFigureIsServed` | ms-editor/internal/usecase/figure_usecase.go:146-181 | Five steps from an empty cache: a figure is deleted and its event handled, and its tag is served with the diagram for a whole lifetime with nothing on its way |
| `MembershipWitness.CreatedTagIsMissed` | ms-editor/internal/usecase/tag_usecase.go:163-177 | Five steps from an empty cache: a tag is created and its event handled, and the object is served without it for a whole lifetime |
| `MembershipWitness.OldAnswerIsServed` | ms-viewer/internal/realtime/topic_resolver.go:76-105 | Five steps from an empty cache: a tag is deleted and its event handled while a resolve waits, and it is served for a whole lifetime |
| `MembershipModel.DropsExactly` | ms-viewer/internal/realtime/topic_resolver.go:123-157 | Handling an event drops and reports exactly the cached topics that it names |
| `MembershipModel.ResolveThenHit` | ms-viewer/internal/realtime/topic_resolver.go:55-105 | With nothing in between, a resolve within the lifetime of an earlier one's answer repeats it, and afterwards asks again |
| `MembershipModel.ResolveLeaves` | ms-viewer/internal/realtime/topic_resolver.go:55-105 | What a resolve leaves in the cache: a live entry as it was, an answer for one lifetime, nothing under the topic after a failure, and other topics untouched |
| `MembershipModel.NamesWhom` | ms-viewer/internal/realtime/topic_resolver.go:123-157 | Which topic an event of each kind names |
| `MembershipModel.FailureSaysWhy` | ms-viewer/internal/realtime/topic_resolver.go:55-102 | Each reason for a failed resolve tells exactly what was wrong |
| `EditorModel.MemberIff` | ms-viewer/internal/infrastructure/repository/ws_topic_repository.go:24-135 | A live diagram has the tags its live figures show, and a live object the live tags of its live devices |
| `EditorModel.LiveRowsAreEdited` | ms-editor/internal/infrastructure/repository/postgres_repository.go:91-1216 | Which rows an edit needs: live ones to change or delete, a live one of the diagram to upsert, a missing one to create |
| `EditorModel.MissingRowsAreMade` | ms-editor/internal/infrastructure/repository/postgres_repository.go:268-345 | A new row needs an id that no row has, and a new tag a live device |
| `EditorModel.LiveDevicesAfter` | ms-editor/internal/infrastructure/repository/postgres_repository.go:91-980 | A device stays alive through every edit but its own deletion and that of its object |
| `EditorModel.LiveTagsAfter` | ms-editor/internal/infrastructure/repository/postgres_repository.go:91-1216 | A tag stays alive but for its own deletion, that of its device, and that of the object of its device |
| `EditorModel.LiveFiguresAfter` | ms-editor/internal/infrastructure/repository/postgres_repository.go:91-445 | A figure stays alive but for its own deletion, that of its diagram or the diagram's object, and a bulk upsert of the diagram without it |
| `EditorModel.PublishedAbout` | ms-editor/internal/usecase/figure_usecase.go:113-180 | A bulk upsert publishes one event for each figure that it creates, updates or deletes, figure creation publishes none, and any other edit one |
| `EditorModel.TagEditsMove` | ms-editor/internal/infrastructure/repository/postgres_repository.go:1077-1216 | Tags come and go with the object their device is assigned to |
| `EditorModel.DeviceEditsMove` | ms-editor/internal/infrastructure/repository/postgres_repository.go:820-980 | A device takes its tags with it, to another object or away |
| `EditorModel.NewDeviceIsEmpty` | ms-editor/internal/infrastructure/repository/postgres_repository.go:820-860 | A new device brings no tags |
| `EditorModel.FigureEditsMove` | ms-editor/internal/infrastructure/repository/postgres_repository.go:268-413 | Figures bring their tags to their own diagram only, and a bulk upsert leaves it exactly the tags that it lists |
| `EditorModel.DeletedFigureMoves` | ms-editor/internal/infrastructure/repository/postgres_repository.go:423-445 | A deleted figure takes its tag from its diagram unless another live figure shows it |
| `EditorModel.DeletionsMove` | ms-editor/internal/infrastructure/repository/postgres_repository.go:91-231 | A deleted diagram, and a deleted object with its diagrams, is missing afterwards, and every other topic keeps its members |
| `MembershipCache.MembershipCache.Get` | ms-viewer/internal/realtime/membership_cache.go:35-60 | In place: a live entry's list, or the eviction of an expired one |
| `MembershipCache.MembershipCache.Set` | ms-viewer/internal/realtime/membership_cache.go:62-90 | In place: the entry and its inverse links replace the old ones |
| `MembershipCache.MembershipCache.Invalidate` | ms-viewer/internal/realtime/membership_cache.go:92-109 | In place: drops one topic and names it if it was cached |
| `MembershipCache.MembershipCache.InvalidateByTag` | ms-viewer/internal/realtime/membership_cache.go:111-136 | In place: drops and names exactly the topics that hold the tag |
| `MembershipCache.MembershipCache.InvalidateByConfigEvent` | ms-viewer/internal/realtime/topic_resolver.go:123-157 | In place: drops and names exactly the topics that the event names, by its entity, its id and its payload |
| `MembershipCache.MembershipCache.ResolveTopic` | ms-viewer/internal/realtime/topic_resolver.go:55-105 | In place: cache hit, parse failure, repository failure, limit failure or a fresh answer that is remembered |
| `Uuids.UniqueUuids` | ms-viewer/internal/realtime/membership_cache.go:182-196 | The non-nil members of the list once each, in order of first occurrence |
| `LimiterModel.SlidingBound` | ms-auth/internal/usecase/ratelimit/limiter.go:46-102 | With attempts serialised as in login and no success in between, any closed interval as long as the window holds at most 2 * maxFailures - 1 failures |
| `LimiterModel.AnchoredBound` | ms-auth/internal/usecase/ratelimit/limiter.go:75-102 | The window that begins at an anchoring failure holds at most maxFailures |
| `LimiterModel.BoundIsReached` | ms-auth/internal/usecase/ratelimit/limiter.go:46-102 | For every configuration a run reaches exactly 2 * maxFailures - 1 failures within a closed interval as long as the window |
| `LimiterModel.CollectionsInvisible` | ms-auth/internal/usecase/ratelimit/limiter.go:119-138 | Removing all collector sweeps from any run changes no answer |
| `LimiterModel.RefusedIff` | ms-auth/internal/usecase/ratelimit/limiter.go:46-73 | In every reachable history an attempt is refused exactly while the window of the last anchor runs and holds maxFailures failures, and one that is let through waits for nothing |
| `LimiterModel.DelayIsExact` | ms-auth/internal/usecase/ratelimit/limiter.go:64-70 | The delay of a refusal lies between 0 and the window; without a call in between the key is refused up to that delay and let through at every later instant |
| `LimiterModel.SuccessForgives` | ms-auth/internal/usecase/ratelimit/limiter.go:104-117 | A success lets the next attempt through |
| `LimiterModel.ForgottenIff` | ms-auth/internal/usecase/ratelimit/limiter.go:119-138 | A sweep, or an attempt, forgets a key exactly when its window is over |
| `LoginLimiter.Limiter.Allow` | ms-auth/internal/usecase/ratelimit/limiter.go:46-73 | In place: the answer and retry delay, with an expired window forgotten |
| `LoginLimiter.Limiter.OnFailure` | ms-auth/internal/usecase/ratelimit/limiter.go:75-102 | In place: a new window or one more failure in the current one |
| `LoginLimiter.Limiter.CollectGarbage` | ms-auth/internal/usecase/ratelimit/limiter.go:119-138 | In place: exactly the expired keys are dropped |
| `AlarmEvaluator.ChatterBound` | ms-viewer/internal/domain/alarm_evaluator.go:65-116 | Over any good samples, (entries into the high state - 1) times twice the gap is at most the total variation |
| `AlarmEvaluator.OuterPairHolds` | ms-viewer/internal/domain/alarm_evaluator.go:65-116 | With both outer thresholds set a value between the thresholds keeps a high state exactly above the upper one less the given percentage of their distance, and a low state likewise |
| `AlarmEvaluator.PlainPairHolds` | ms-viewer/internal/domain/alarm_evaluator.go:65-116 | Without both of them it is the percentage of the distance of the plain high and low thresholds |
| `AlarmEvaluator.NoPairHolds` | ms-viewer/internal/domain/alarm_evaluator.go:65-116 | Without such a pair it is a hundredth of the percentage |
| `AlarmEvaluator.DefaultPercent` | ms-viewer/internal/domain/alarm_evaluator.go:96-99 | A percentage that is not positive acts as two |
| `AlarmEvaluator.SeverestState` | ms-viewer/internal/domain/alarm_evaluator.go:24-63 | A good value takes the severest state whose threshold it has reached, a missing one is bad, and a bad quality is its own state |
| `AlarmEvaluator.ChatterBetweenTwo` | ms-viewer/internal/domain/alarm_evaluator.go:65-116 | With one high and one low threshold each re-entry costs twice the percentage of their distance in variation, or twice the distance above a hundred percent |
| `AlarmEvaluator.GapOfOneThreshold` | ms-viewer/internal/domain/alarm_evaluator.go:96-116 | With one high and at most one low threshold the gap is the margin, written out as the percentage of their distance or a hundredth of it without a pair, or the distance to the low threshold if that is less |
| `AlarmEvaluator.ChatterBoundedIff` | ms-viewer/internal/domain/alarm_evaluator.go:65-94 | Some cost per re-entry bounds chatter if and only if the gap is positive |
| `AlarmEvaluator.OneThresholdIsProtected` | ms-viewer/internal/domain/alarm_evaluator.go:65-116 | With one high threshold above at most one low threshold chatter is bounded at every percentage |
| `AlarmEvaluator.ChatterUnbounded` | ms-viewer/internal/domain/alarm_evaluator.go:65-94 | Without a gap any number of entries fits into any amount of variation |
| `AlarmEvaluator.BothHighThresholds` | ms-viewer/internal/domain/alarm_evaluator.go:65-94 | With both high thresholds set and no low one, the lower one is protected exactly when they are less than a hundredth of the percentage apart |
| `AlarmEvaluator.OrdinarySetpointsChatter` | ms-viewer/internal/domain/alarm_evaluator.go:65-94 | Setpoints 10, 20, 80, 90 at two percent leave the lower high threshold without hysteresis |
| `AlarmEvaluator.HighAfter` | ms-viewer/internal/domain/alarm_evaluator.go:5-94 | Exactly when a good sample leaves the state high: at or above the entry level, or high before and above the exit level |
| `AlarmEvaluator.MirrorImage` | ms-viewer/internal/domain/alarm_evaluator.go:24-116 | With separated thresholds the low side behaves as the high side of the negated values |
| `AlarmEvaluator.EvaluationIsIdempotent` | ms-viewer/internal/domain/alarm_evaluator.go:5-22 | Evaluating the same sample again from its result changes nothing |
| `AlarmEvaluator.ChangedIffDifferent` | ms-viewer/internal/domain/alarm_evaluator.go:5-22 | A change is reported exactly when the state differs |
| `AlarmLog.RunReplaysIff` | ms-viewer/internal/usecase/alarm_usecase.go:93-157 | Over every run of whole ingestions and deletions the transitions since the last deletion chain from OK to the stored state, if and only if no ingestion since then stored a first row and failed to log its transition |
| `AlarmLog.TornRunLosesAlarm` | ms-viewer/internal/usecase/alarm_usecase.go:93-157 | A first alarming value whose transition fails, then a successful retry: the row is in alarm and the log is empty |
| `AlarmLog.IngestReplaysIff` | ms-viewer/internal/usecase/alarm_usecase.go:93-157 | One ingestion keeps that property exactly when it is not torn in that way |
| `AlarmLog.RetryRepairsIff` | ms-viewer/internal/usecase/alarm_usecase.go:93-157 | A clean retry makes good any earlier attempt at the same record, unless that attempt was torn: then its transition is never logged |
| `AlarmLog.IngestTwiceIsOnce` | ms-viewer/internal/usecase/alarm_usecase.go:93-157 | A second clean ingestion of a record leaves row and log identical |
| `AlarmLog.RunsAreDated` | ms-viewer/internal/usecase/alarm_usecase.go:93-157 | Over every run of whole ingestions without a torn one since the last deletion the row was entered at the instant of the last logged transition |
| `AlarmLog.RowAfter` | ms-viewer/internal/usecase/alarm_usecase.go:93-157 | A successful ingestion leaves the record in the row, entered now exactly if the row is new or its state differs |
| `AlarmLog.RetriedBatch` | ms-viewer/internal/usecase/ingest_usecase.go:169-192 | After a batch that stopped half way, a complete second pass leaves in each tag what one complete pass would have, but for a torn tag, and adds nothing to tags already done |
| `AlarmRaces.RunsTruthfulIff` | ms-viewer/internal/usecase/alarm_usecase.go:93-157 | With an ingestion's three store calls as steps of their own, over any interleaving of ingestions and deletions, from the beginning or a deletion on, the log chains from OK to the stored state in every state, but for a first row whose transition is on its way, if and only if no call applies a transition from a state other than the log's, writes such a state back while no transition is owed, or fails to log the only owed one |
| `AlarmRaces.NextTruthfulIff` | ms-viewer/internal/usecase/alarm_usecase.go:93-157 | One step ends that precisely when it is one of those |
| `AlarmRaces.BreaksIffRowMoved` | ms-viewer/internal/usecase/alarm_usecase.go:98-149 | While no transition is owed those are the writes over a row whose state is no longer the one that was read |
| `AlarmRaces.AtRestReplaysIff` | ms-viewer/internal/usecase/alarm_usecase.go:93-157 | With no ingestion under way it says that the log replays to the stored state |
| `AlarmRaces.UninterruptedIsWhole` | ms-viewer/internal/usecase/alarm_usecase.go:93-157 | The calls of one ingestion right after one another, any of them failing, are the whole ingestion of the coarser model |
| `AlarmRaces.BothLeaveOK` | ms-viewer/internal/usecase/alarm_usecase.go:314-319 | Six steps from an empty log: a flush and the scanner read the same row and both apply a transition from it, and the log does not chain |
| `AlarmRaces.OldStateIsStored` | ms-viewer/internal/usecase/alarm_usecase.go:117-129 | Six steps from an empty log: a flush whose value changes nothing stores the old state over the scanner's transition, and the row says OK where the log ends with a lost connection |
| `AlarmRaces.ClearsAfterDeletion` | ms-viewer/internal/usecase/alarm_usecase.go:259-265 | Seven steps from an empty log: the tag is deleted between the read of an alarm and its clearing, and the new row's log begins with a clearing |
| `AlarmUseCase.AlarmUseCase.IngestValue` | ms-viewer/internal/usecase/alarm_usecase.go:93-157 | In place over the repository: the model's step for the tag, no other tag touched, and the published event is exactly the one logged |
| `AlarmUseCase.AlarmUseCase.HandleTagConfigChanged` | ms-viewer/internal/usecase/alarm_usecase.go:248-287 | Setpoints of the one tag are replaced, or dropped together with its row |
| `AlarmUseCase.AlarmRepository.ApplyTransition` | ms-viewer/internal/infrastructure/repository/alarm_repository.go:172-261 | Row and event together or neither |
| `AlarmUseCase.AlarmRepository.UpsertState` | ms-viewer/internal/infrastructure/repository/alarm_repository.go:138-170 | Row only |
| `AlarmUseCase.AlarmRepository.DeleteByTagID` | ms-viewer/internal/infrastructure/repository/alarm_repository.go:899-909 | The row goes, the events stay |
| `IngestModel.RunsConserve` | ms-viewer/internal/usecase/ingest_usecase.go:66-116 | Whatever fails, flushed batches followed by the buffer are exactly the ingested sequence, the raw-value table replays a prefix of it that covers everything flushed, and each flush announced each tag's latest record once |
| `IngestModel.LeavesOnlyStored` | ms-viewer/internal/usecase/ingest_usecase.go:98-116 | A record leaves the buffer only in a flush after which its row holds its value |
| `IngestModel.UpsertAgain` | ms-viewer/internal/infrastructure/repository/ingest_repository.go:21-55 | Storing a buffer again after a partial store is the same as storing it once |
| `IngestModel.FlushStores` | ms-viewer/internal/usecase/ingest_usecase.go:98-116 | A flush that is not refused writes the row of every buffered record and no other, even when the alarms fail after it, which leaves the buffer for the next try |
| `IngestModel.FlushEmptiesIff` | ms-viewer/internal/usecase/ingest_usecase.go:98-116 | A flush empties the buffer exactly when no store call fails and no two of its records share tag and microsecond |
| `IngestModel.ConflictBlocksForever` | ms-viewer/internal/infrastructure/repository/ingest_repository.go:40-48 | Two buffered records of one tag within a microsecond make the upsert statement fail in every later flush: nothing is stored, published or flushed again |
| `IngestModel.ConflictIsReached` | ms-viewer/internal/infrastructure/repository/ingest_repository.go:40-48 | Two values of one tag a nanosecond apart reach that from an empty buffer, and a flush without any fault does nothing |
| `IngestModel.BufferBelowBatchSize` | ms-viewer/internal/usecase/ingest_usecase.go:66-84 | When an ingestion leaves the buffer below the batch size |
| `IngestModel.LatestByTagUnique` | ms-viewer/internal/usecase/ingest_usecase.go:118-192 | First record of greatest timestamp determines the map |
| `Ingest.LatestPerTag` | ms-viewer/internal/usecase/ingest_usecase.go:178-184 | The loop finds, for exactly the tags that occur, the first record of greatest timestamp |
| `Ingest.IngestUseCase.IngestAlarms` | ms-viewer/internal/usecase/ingest_usecase.go:169-192 | In map order until the first failure: done tags ingested cleanly, one stuck, the rest untouched |
| `Ingest.IngestUseCase.PublishRealtime` | ms-viewer/internal/usecase/ingest_usecase.go:149-167 | Each tag's latest record is published once |
| `Ingest.IngestUseCase.UpsertRawValues` | ms-viewer/internal/infrastructure/repository/ingest_repository.go:21-55 | One statement: all rows, last one winning per tag and instant, or none when it fails or would touch a row twice |
| `Ingest.IngestUseCase.FlushLocked` | ms-viewer/internal/usecase/ingest_usecase.go:98-116 | In place: store, alarms, publication, then the buffer; and what each failure leaves |
| `Ingest.IngestUseCase.IngestTagValue` | ms-viewer/internal/usecase/ingest_usecase.go:66-84 | In place: buffers the record and flushes at the batch size; a flush fails only if a store call does |
| `Ingest.IngestUseCase.FlushPending` | ms-viewer/internal/usecase/ingest_usecase.go:86-96 | In place: one flush, and the number of records it flushed |
| `Snapshots.CloneSnapshot` | ms-poll/internal/usecase/snapshot_store.go:177-233 | A deep copy sharing no map, slice, device or tag object with the original, with its load time; its index is the grouping of its tags exactly when every listed entry is filed under the device of the tag its id names; a copy of an indexed snapshot says the same and is indexed |
| `Snapshots.CloneIndex` | ms-poll/internal/usecase/snapshot_store.go:199-230 | In place, into the copy's own maps: the copied tags are the original's and those found only in lists; the index follows as above |
| `Snapshots.RefileAll` | ms-poll/internal/usecase/snapshot_store.go:225-230 | In place: after the final loop each tag object is filed once under its device, in a new slice, and other entries are untouched |
| `Snapshots.RemoveTagByID` | ms-poll/internal/usecase/snapshot_store.go:330-348 | A new slice without nil entries and those with the id |
| `Snapshots.UpsertTagToSlice` | ms-poll/internal/usecase/snapshot_store.go:351-357 | In place: the tag's device gets a new slice, without entries of the tag's id and with the tag at the end |
| `Snapshots.UnfileTag` | ms-poll/internal/usecase/snapshot_store.go:146-155 | In place: an id leaves a device's list, and the list goes with its last entry |
| `DeviceIndex.RefiledIff` | ms-poll/internal/usecase/snapshot_store.go:225-230 | Refiling all tags yields the duplicate-free non-empty grouping exactly when no list held another device's tag |
| `DeviceIndex.GroupingDetermined` | ms-poll/internal/usecase/snapshot_store.go:177-233 | Two groupings of the same tags differ at most in the order of each list |
| `DeviceIndex.UnfiledGroups` | ms-poll/internal/usecase/snapshot_store.go:130-163 | Taking a tag out of its list, and the list with its last tag, keeps the grouping |
| `DeviceIndex.FiledGroups` | ms-poll/internal/usecase/snapshot_store.go:92-128 | Filing a new object under its device keeps the grouping |
| `DeviceIndex.DeviceUnfiledGroups` | ms-poll/internal/usecase/snapshot_store.go:63-90 | Dropping a device's list and its tags keeps the grouping |
| `SnapshotStore.SnapshotStore.Replace` | ms-poll/internal/usecase/snapshot_store.go:31-43 | A private copy is published and announced; the store is good afterwards exactly when the lists given were filed correctly |
| `SnapshotStore.SnapshotStore.UpsertDevice` | ms-poll/internal/usecase/snapshot_store.go:45-61 | From a good store: the plain-map update, announced to every subscriber; the snapshot published is new in every map, slice and object, and no older one is touched |
| `SnapshotStore.SnapshotStore.RemoveDevice` | ms-poll/internal/usecase/snapshot_store.go:63-90 | From a good store: the device and its tags leave the plain maps |
| `SnapshotStore.SnapshotStore.UpsertTag` | ms-poll/internal/usecase/snapshot_store.go:92-128 | From a good store: the plain-map update, wherever the tag was before |
| `SnapshotStore.SnapshotStore.RemoveTag` | ms-poll/internal/usecase/snapshot_store.go:130-163 | From a good store: the tag leaves the plain map, and nothing is announced for an unknown one |
| `SnapshotStore.DeleteDevice` | ms-poll/internal/usecase/snapshot_store.go:76-83 | In place, in the maps of a copy: the device, its tags and its list go, and nothing new becomes reachable |
| `SnapshotStore.AssignTag` | ms-poll/internal/usecase/snapshot_store.go:101-118 | In place, in the maps of a copy: the tag leaves its old list and its copy enters the tags and its device's list |
| `SnapshotStore.SnapshotStore.Publish` | ms-poll/internal/usecase/snapshot_store.go:119-124 | Publishing and announcing change nothing that the new snapshot reaches |
| `SnapshotStore.SnapshotStore.ServeAll` | ms-poll/internal/usecase/snapshot_store.go:24-163 | Over any sequence of requests the store equals the fold of the plain-map operations, and the snapshot taken at each point of the run still says at the end what that fold said at that point |
| `SnapshotRuns.TagsFollow` | ms-poll/internal/usecase/snapshot_store.go:31-163 | After any sequence of changes the store holds of each tag the last word on it: its latest upsert, unless it or its device was removed since, or everything replaced |
| `SnapshotRuns.DevicesFollow` | ms-poll/internal/usecase/snapshot_store.go:31-90 | And of each device its latest upsert, unless it was removed since, or everything replaced |
| `SnapshotRuns.NothingElseChanges` | ms-poll/internal/usecase/snapshot_store.go:45-163 | Without a replacement the load time stays, and a snapshot exists exactly if one did before or something with an id was upserted |
| `SnapshotRuns.AnnouncedIff` | ms-poll/internal/usecase/snapshot_store.go:31-163 | A change is announced exactly if it can make a difference, and the tag, device and removal that the event names are what the next snapshot shows |
| `SnapshotRuns.HearsUnlessFull` | ms-poll/internal/usecase/snapshot_subscription.go:45-65 | A subscriber's queue grows by every such event unless 64 are waiting, and a change without an event leaves the store alone |
| `SnapshotStore.SnapshotStore.PublishEvent` | ms-poll/internal/usecase/snapshot_subscription.go:45-65 | Each subscriber's queue grows by the event, or drops it at 64 |
| `SnapshotStore.SnapshotStore.Subscribe` | ms-poll/internal/usecase/snapshot_subscription.go:16-25 | A new empty queue joins |
| `SnapshotStore.SnapshotStore.Unsubscribe` | ms-poll/internal/usecase/snapshot_subscription.go:27-43 | The queue leaves and is closed, others untouched |
| `SchedulerConvergence.Convergence` | ms-poll/internal/usecase/scheduler.go:83-141 | In any interleaving of store changes, event handling and worker steps without a dropped event or a moved tag, a device with nothing pending has a worker exactly when it is known and has tags, and that worker follows its current configuration |
| `SchedulerConvergence.DrainedAgrees` | ms-poll/internal/usecase/scheduler.go:83-105 | With the queue empty and no event in hand this holds of all devices |
| `SchedulerProgress.CanAgree` | ms-poll/internal/usecase/scheduler.go:69-215 | A run that has dropped no event and moved no tag can go on from wherever it is, without any further change, until every device has exactly the worker it should have, on its current configuration |
| `SchedulerProgress.CanFinish` | ms-poll/internal/usecase/scheduler.go:69-215 | Every run, whatever was dropped, can go on by steps of the scheduler and its workers alone until the scheduler is back at its select with an empty queue or about to return: it is never stuck |
| `SchedulerProgress.CanReturn` | ms-poll/internal/usecase/scheduler.go:83-105 | From any state the scheduler can be cancelled and then go on until it has returned with no worker alive |
| `SchedulerProgress.FailedBuildReadsAgain` | ms-poll/internal/usecase/scheduler.go:235-292 | A worker whose driver cannot be built holds none, and its next try takes the configuration the store has by then |
| `SchedulerConvergence.ChangeConcerns` | ms-poll/internal/usecase/snapshot_store.go:45-163 | A change whose event does not concern a device leaves its configuration as it was, and a removal event leaves it unwanted |
| `SchedulerConvergence.WorksAgrees` | ms-poll/internal/usecase/scheduler.go:235-292 | A worker's own steps never break agreement |
| `SchedulerSafety.MutualExclusion` | ms-poll/internal/usecase/scheduler.go:178-196 | In every state of every run two live worker goroutines belong to different devices, so no device has two open drivers |
| `SchedulerSafety.NoneLeft` | ms-poll/internal/usecase/scheduler.go:86-90 | When the scheduler has finished stopping everything, no goroutine is alive and no driver open |
| `SchedulerLimits.RunsConvergeIff` | ms-poll/internal/usecase/scheduler.go:83-141 | Over any interleaving that is not cancelled, a device is convergent in every state, if and only if no store change goes unheard for it that wants it after a queued removal or a stop, no longer wants it before its registration, or affects it with nothing on its way |
| `SchedulerLimits.NextConvergesIff` | ms-poll/internal/usecase/scheduler.go:83-141 | One step ends convergence precisely when it is such a change |
| `SchedulerLimits.StoreConvergesIff` | ms-poll/internal/usecase/snapshot_subscription.go:47-63 | The same for one store change, whether its event is dropped or names other devices only |
| `SchedulerLimits.MoveKeepsIff` | ms-poll/internal/usecase/snapshot_store.go:123-127 | Moving a tag away from a device in agreement keeps it there exactly when the device is not known, or keeps another tag and its worker has yet to read the store |
| `SchedulerLimits.MoveLeavesStale` | ms-poll/internal/usecase/snapshot_store.go:123-127 | If its driver is open, the old device is stale with nothing pending |
| `SchedulerLimits.DropLeavesStale` | ms-poll/internal/usecase/snapshot_subscription.go:47-63 | So is a device whose change meets a full queue of other devices' events |
| `SchedulerWitness.MoveIsReached` | ms-poll/internal/usecase/snapshot_store.go:123-127 | A run reaches an open driver whose device then loses a tag: the driver is stale with nothing pending |
| `SchedulerWitness.DropIsReached` | ms-poll/internal/usecase/snapshot_subscription.go:47-63 | A run fills the queue with 64 events of a spare device and then changes the device of an open driver: the driver is stale with nothing pending |
| `SchedulerLimits.StaleDisagrees` | ms-poll/internal/usecase/scheduler.go:235-292 | A driver open on a configuration that is not the device's current one is a disagreement |
| `SchedulerLimits.StaleStays` | ms-poll/internal/usecase/scheduler.go:83-141 | Such a device stays stale whatever the scheduler and the workers do, as long as the store is left alone |
| `SchedulerLimits.WaitCanEnd` | ms-poll/internal/usecase/scheduler.go:194-195 | Whatever the awaited worker is doing, at most four of its own steps let the wait for its done channel end |
| `SchedulerLimits.AwaitedIsCancelled` | ms-poll/internal/usecase/scheduler.go:194-195 | The awaited worker has been cancelled in every reachable state |
| `SchedulerLimits.DropKeepsIff` | ms-poll/internal/usecase/snapshot_subscription.go:47-63 | A change whose event is dropped leaves a device in agreement exactly when its configuration is unchanged, or it is wanted neither before nor after, or it is wanted both times and its worker has yet to read the store |
| `Scheduler.Scheduler.DesiredDeviceIDs` | ms-poll/internal/usecase/scheduler.go:217-233 | Reading the snapshot's index finds, once each, exactly the devices that are known and have tags |
| `Scheduler.Scheduler.GetDeviceConfig` | ms-poll/internal/usecase/scheduler.go:394-422 | Reading the snapshot's index finds the device and each of its tags exactly once |
| `Scheduler.Scheduler.DetachWorker` | ms-poll/internal/usecase/scheduler.go:178-194 | In place: the device's worker alone leaves the map and is cancelled |
| `Scheduler.Scheduler.CommitWorker` | ms-poll/internal/usecase/scheduler.go:162-170 | In place: a new uncancelled worker is registered |
| `RefreshFamilies.RunsKeepFamilies` | ms-auth/internal/usecase/token_service.go:187-289 | In every state of every run, whatever fails after a token is marked used, a family has one user, one revocation instant, at most one unused record and at most one child per record |
| `RefreshFamilies.EveryCallRuns` | ms-auth/internal/usecase/token_service.go:81-320 | In every state every call of the model can be made, so no run ends early |
| `RefreshFamilies.RotatesAtMostOnce` | ms-auth/internal/usecase/token_service.go:226-228 | No refresh token is exchanged twice in any run of whole calls |
| `RefreshFamilies.ReuseEndsFamily` | ms-auth/internal/usecase/token_service.go:215-224 | After reuse is detected no token of that family is ever exchanged again in a run of whole calls |
| `RefreshFamilies.ReuseIsDetectedIff` | ms-auth/internal/usecase/token_service.go:215-224 | A used, unexpired, unrevoked token presented again is reported exactly when lookup and revocation succeed, and its family is dead exactly when the revocation does |
| `RefreshFamilies.OtherAnswersAreClean` | ms-auth/internal/usecase/token_service.go:187-289 | Any answer but a failure is the answer without one, with the state that goes with it |
| `RefreshFamilies.DisabledAnswers` | ms-auth/internal/usecase/token_service.go:230-252 | A good token of an inactive user ends as disabled with its family revoked, and what each failing call leaves instead |
| `RefreshFamilies.RevokesOwnOnly` | ms-auth/internal/infrastructure/repository/refresh_token_repository.go:97-133 | A token is revoked only by presenting one of its family or by an admin call on its user, and then at that instant |
| `RefreshFamilies.SweepIsInvisible` | ms-auth/internal/infrastructure/repository/refresh_token_repository.go:135-152 | A rotation at or after a sweep of expired rows is answered as it would have been without it |
| `RefreshFamilies.SweepRemovesExpired` | ms-auth/internal/infrastructure/repository/refresh_token_repository.go:135-152 | A sweep removes exactly the rows past their expiry, and rows lose exactly the parents that go |
| `RefreshFamilies.RotatesIff` | ms-auth/internal/usecase/token_service.go:187-289 | Exactly when an exchange succeeds |
| `RefreshFamilies.ExpireKeeps` | ms-auth/internal/infrastructure/repository/refresh_token_repository.go:135-152 | Deleting expired rows, with children of deleted rows losing their parent, keeps the family invariant |
| `RefreshFamilies.ChildKeeps` | ms-auth/internal/usecase/token_service.go:267-279 | Marking a record and inserting its child keeps the family invariant |
| `RotationRaces.RunsExclusiveIff` | ms-auth/internal/usecase/token_service.go:187-289 | With the rotation's repository calls as steps of their own, over any interleaving no token is claimed by two rotations or exchanged twice, in any state, if and only if no rotation looks a good token up between another's look-up and its mark |
| `RotationRaces.NextExclusiveIff` | ms-auth/internal/usecase/token_service.go:197-228 | One step lets a second rotation claim a token precisely when it is such a look-up |
| `RotationRaces.ExchangedAtMostOnce` | ms-auth/internal/infrastructure/repository/refresh_token_repository.go:79-95 | Without such a look-up each token is exchanged at most once |
| `RotationRaces.RaceExchangesTwice` | ms-auth/internal/usecase/token_service.go:226-279 | From any state after such a look-up on a token of an active user the remaining six calls exchange it twice and leave two children of one record |
| `RotationRaces.RaceIsReached` | ms-auth/internal/usecase/token_service.go:187-289 | A run from a login reaches it |
| `RotationRaces.UninterruptedIsWhole` | ms-auth/internal/usecase/token_service.go:187-289 | The steps of one rotation right after one another, for every token and whichever of them fails, are the whole call of the coarser model |
| `RevocationRaces.RunsDeadIff` | ms-auth/internal/usecase/token_service.go:215-279 | Over any interleaving a family that is over stays so in every later state, if and only if no rotation that had loaded its user inserts its child later on |
| `RevocationRaces.NextDeadIff` | ms-auth/internal/usecase/token_service.go:241-279 | One step brings such a family back to life precisely when it inserts that child |
| `RevocationRaces.RevokedFamilyRevives` | ms-auth/internal/usecase/token_service.go:230-279 | A run from a login: a family is revoked while a rotation is on its way, without an error, and the rotation ends with an unrevoked token of that family |
| `RevocationRaces.RunsSessionsIff` | ms-auth/internal/usecase/token_service.go:230-279 | Over any interleaving inactive users hold no session in any state, if and only if no call orphans one and no rotation inserts the child of a user deactivated since it was loaded |
| `RevocationRaces.NextSessionsIff` | ms-auth/internal/usecase/token_service.go:230-279 | One step gives an inactive user a session precisely when it is one of those |
| `RevocationRaces.DeactivatedUserKeepsSession` | ms-auth/internal/usecase/token_service.go:230-279 | A run from a login: a user is deactivated with success while a rotation is on its way, and holds a session afterwards |
| `AuthServices.AuthService.Authenticate` | ms-auth/internal/usecase/auth_service.go:54-123 | In place: the user of the subject, created on first sight, is let through when active; a row that was created stays whatever fails afterwards |
| `AuthServices.UserRepository.FindBySubject` | ms-auth/internal/infrastructure/repository/user_repository.go:52-68 | The row with the subject, or the certainty that there is none |
| `AuthServices.TokenService.Rotate` | ms-auth/internal/usecase/token_service.go:187-289 | Over the repositories: the exchange of the row that the hash finds, with the first failing call ending it and leaving what came before |
| `AuthServices.TokenService.Revoke` | ms-auth/internal/usecase/token_service.go:291-320 | The whole family of the row found is revoked, used or expired as it may be; an unknown or malformed token is no error |
| `AuthServices.TokenService.IssueForUser` | ms-auth/internal/usecase/token_service.go:81-144 | A new family with one unused record, for the user as authentication found it |
| `AuthServices.RefreshTokenRepository.FindByHash` | ms-auth/internal/infrastructure/repository/refresh_token_repository.go:58-77 | The row with the hash, or the certainty that there is none |
| `AuthServices.RefreshTokenRepository.MarkUsed` | ms-auth/internal/infrastructure/repository/refresh_token_repository.go:79-95 | The row's used instant is set whatever it was |
| `AuthServices.RefreshTokenRepository.RevokeFamily` | ms-auth/internal/infrastructure/repository/refresh_token_repository.go:97-114 | The family's unrevoked rows, and no others |
| `AuthServices.RefreshTokenRepository.RevokeAllForUser` | ms-auth/internal/infrastructure/repository/refresh_token_repository.go:116-133 | The user's unrevoked rows, and no others |
| `AuthServices.RefreshTokenRepository.DeleteExpired` | ms-auth/internal/infrastructure/repository/refresh_token_repository.go:135-152 | Rows strictly past their expiry, with the count of those deleted |
| `AdminSafety.RunsKeepAdmin` | ms-auth/internal/usecase/admin_service.go:194-388 | From a state with an active admin no run of whole calls, wherever they fail, leaves the system without one |
| `AdminSafety.LastAdminStays` | ms-auth/internal/usecase/admin_service.go:572-597 | The only active admin is still an active admin after any call |
| `AdminGuards.NobodyRemovesOneself` | ms-auth/internal/usecase/admin_service.go:572-597 | In every run of whole calls, whoever is an active admin at one moment and not at a later one was deactivated or demoted in between by someone else, while there was another active admin |
| `AdminGuards.DeactivationAnswers` | ms-auth/internal/usecase/admin_service.go:266-308 | Without a failing call an admin does not deactivate oneself, the last active admin stays, and anyone else is inactive afterwards with exactly the unrevoked tokens revoked |
| `AdminGuards.UpdateAnswers` | ms-auth/internal/usecase/admin_service.go:194-264 | An update that turns the active flag off is answered as a deactivation, and any other leaves tokens alone |
| `AdminGuards.RefusedWhateverFails` | ms-auth/internal/usecase/admin_service.go:572-597 | The guard comes before every write, so only a failing read or a blank password is reported instead of its refusal |
| `AdminGuards.RoleAnswers` | ms-auth/internal/usecase/admin_service.go:310-366 | Without a failing call one's own admin role is not dropped, nor that of the last active admin, and any other known roles are set |
| `AdminGuards.UnknownRoles` | ms-auth/internal/usecase/admin_service.go:310-330 | Roles that do not exist are refused before anything is read |
| `AdminGuards.RemovalAnswers` | ms-auth/internal/usecase/admin_service.go:368-388 | Removing a role is setting the others, and removing one's own admin role is refused |
| `AdminGuards.FailedReadsAndWrites` | ms-auth/internal/usecase/admin_service.go:194-420 | A read or write that fails changes nothing and is reported |
| `AdminGuards.HalfDone` | ms-auth/internal/usecase/admin_service.go:266-308 | A deactivation that fails after the write leaves the user inactive and every token as it was |
| `AdminGuards.RevokingAnswers` | ms-auth/internal/usecase/admin_service.go:390-420 | Sessions of a known user are revoked when neither call fails, and what is answered otherwise |
| `AdminGuards.CreationAnswers` | ms-auth/internal/usecase/admin_service.go:129-192 | What creating a user leaves for unknown roles, each failing call and success |
| `AdminGuards.SubjectKeepsItsRow` | ms-auth/internal/usecase/auth_service.go:54-123 | A login finds the row a subject has and makes one only when there is none |
| `AdminGuards.AuthenticationAnswers` | ms-auth/internal/usecase/auth_service.go:54-123 | Every answer of an authentication, for a known or new subject, and what each failing call leaves |
| `AdminRaces.RunsSafeIff` | ms-auth/internal/usecase/admin_service.go:221-248 | With guard and write of a removal as two calls, over any interleaving some active admin would survive everything under way, in every state, if and only if no guard counts only admins whose own removal has passed its guard |
| `AdminRaces.NextSafeIff` | ms-auth/internal/usecase/admin_service.go:572-597 | One step gives that up precisely when it is such a guard |
| `AdminRaces.UninterruptedIsWhole` | ms-auth/internal/usecase/admin_service.go:194-366 | The guard and the write right after one another are the whole call of the coarser model as far as users go, whatever fails in between and with the same refusals |
| `AdminRaces.OthersAreSteps` | ms-auth/internal/usecase/admin_service.go:129-420 | Every other call of the coarser model is a step that leaves an active admin one, or leaves the users alone |
| `AdminRaces.UnsafeLosesAdmins` | ms-auth/internal/usecase/admin_service.go:221-248 | Once given up, writing what has passed its guard leaves no active admin |
| `AdminRaces.AdminsRemoveEachOther` | ms-auth/internal/usecase/admin_service.go:266-308 | Two admins deactivate each other at the same moment and none is left |
| `AdminSafety.NextKeepsSessionsIff` | ms-auth/internal/usecase/admin_service.go:221-248 | A call keeps inactive users without unrevoked tokens exactly when it is neither a deactivation that writes the user and then fails while the user holds one, nor the second call of a login whose user is inactive by then |
| `AdminSafety.RunsKeepSessionsIff` | ms-auth/internal/api/http/auth.go:248-285 | Over any run of admin, login and rotation calls, with authentication and issuing as two calls, inactive users hold no unrevoked token in any state if and only if no call is one of those two |
| `AdminSafety.LoginOutlivesDeactivation` | ms-auth/internal/api/http/auth.go:248-285 | A run in which no call fails: authentication, a deactivation, then issuing, and the inactive user holds an unrevoked token |
| `AdminSafety.HalfDeactivationIsReached` | ms-auth/internal/usecase/admin_service.go:240-248 | A run reaches a user whose deactivation would leave the session behind if it failed after its write |
| `AdminSafety.RetryDoesNotRepair` | ms-auth/internal/usecase/admin_service.go:278-280 | Deactivating again after such a failure reports success and revokes nothing |
| `AdminSafety.RevokingSessionsRepairs` | ms-auth/internal/usecase/admin_service.go:390-420 | Revoking the user's sessions does, and touches no one else's |
| `AdminSafety.IdleTokenIsRefused` | ms-auth/internal/usecase/token_service.go:234-239 | An inactive user's token is never exchanged, and presenting it kills its family |
| `AdminSafety.IssueKeepsSessionsIff` | ms-auth/internal/api/http/auth.go:271-285 | Issuing keeps the rule exactly when it fails or the user is still active by then |
| `AuthServices.AdminService.UpdateUser` | ms-auth/internal/usecase/admin_service.go:194-264 | Users and tokens afterwards and the result, for each guard and each failing call; a row that is written but cannot be read back counts as failed |
| `AuthServices.AdminService.DeactivateUser` | ms-auth/internal/usecase/admin_service.go:266-308 | Users and tokens afterwards and the result; an inactive user is a success that touches nothing |
| `AuthServices.AdminService.SetUserRoles` | ms-auth/internal/usecase/admin_service.go:310-366 | Roles change only past the self-demotion and last-admin guards; nothing else changes |
| `AuthServices.AdminService.RemoveUserRole` | ms-auth/internal/usecase/admin_service.go:368-388 | The remaining roles are set under the same guards |
| `AuthServices.AdminService.RevokeUserSessions` | ms-auth/internal/usecase/admin_service.go:390-420 | The user's unrevoked tokens are revoked and no one else's; an unknown user or a failing call changes nothing |
| `AuthServices.AdminService.CreateUser` | ms-auth/internal/usecase/admin_service.go:129-192 | A user who is active and without roles if the second call fails, and with the roles otherwise |
| `AuthServices.AdminService.EnsureCanDeactivateUser` | ms-auth/internal/usecase/admin_service.go:572-597 | Refused exactly for oneself as an admin and for the last active admin |
| `AuthServices.UserRepository.CountActiveAdminsExcluding` | ms-auth/internal/infrastructure/repository/user_repository.go:285-304 | The number of other active admins |
| `AuthServices.UserRepository.Update` | ms-auth/internal/infrastructure/repository/user_repository.go:163-211 | A failing read-back is reported as an error although the row is written |
| `Argon2.ParseOfPrint` | ms-auth/internal/infrastructure/password/argon2.go:120-165 | Parsing the printed form gives back exactly the parameters, salt and hash, for all positive m, t below 2^32, p below 2^8 and non-empty byte strings |
| `Argon2.ParsedIsWellFormed` | ms-auth/internal/infrastructure/password/argon2.go:120-165 | Whatever parses lies in those ranges and survives printing and parsing |
| `Argon2.ParamsInAnyOrder` | ms-auth/internal/infrastructure/password/argon2.go:181-216 | The three parameters parse alike in every order |
| `Argon2.VerifyOfHash` | ms-auth/internal/infrastructure/password/argon2.go:47-118 | A password is accepted against a stored string exactly when the derivation gives one key for it followed by the pepper and for the stored one followed by its pepper, at 3 passes, 65536 KiB, 2 lanes and 32 bytes, whatever the derivation function |
| `Argon2.VerifyOfParsed` | ms-auth/internal/infrastructure/password/argon2.go:72-118 | Against any string that parses, exactly when the key derived at its costs and length is the stored one |
| `Argon2.OnlyOwnPasswordVerifies` | ms-auth/internal/infrastructure/password/argon2.go:47-118 | With a derivation that tells secrets apart only the stored password verifies, and only with the stored pepper among peppers of one length |
| `Argon2.BoundaryIsInvisible` | ms-auth/internal/infrastructure/password/argon2.go:98-118 | Moving a byte from the end of the password to the beginning of the pepper makes no difference |
| `Argon2.StoredForm` | ms-auth/internal/infrastructure/password/argon2.go:47-70 | The stored string field by field |
| `Argon2.RefusedForms` | ms-auth/internal/infrastructure/password/argon2.go:120-145 | Which strings are refused for their number of fields, their algorithm or their version |
| `Argon2.OwnPasswordVerifies` | ms-auth/internal/infrastructure/password/argon2.go:47-96 | The password that was hashed always verifies |
| `Argon2.ParseArgonParams` | ms-auth/internal/infrastructure/password/argon2.go:181-216 | The loop over the segments computes the parameter parse |
| `Argon2.Hasher.New` | ms-auth/internal/infrastructure/password/argon2.go:36-45 | A short pepper is refused; otherwise the caller's buffer is copied |
| `Argon2.Hasher.Hash` | ms-auth/internal/infrastructure/password/argon2.go:47-70 | The stored string, which verifies against the same password |
| `Argon2.Hasher.Verify` | ms-auth/internal/infrastructure/password/argon2.go:72-96 | The comparison, or the parse error |
| `Text.Base64RoundTrip` | ms-auth/internal/infrastructure/password/argon2.go:139-155 | Unpadded decoding undoes unpadded encoding for every byte string |
| `Text.DecodingIsNotInjective` | ms-auth/internal/infrastructure/password/argon2.go:139-155 | The stored form is not canonical: three texts decode to the same byte |
| `TextAnswers.LettersSpellBytes` | ms-auth/internal/infrastructure/password/argon2.go:58-59 | Three bytes become four letters that spell the same number to base 64, and one or two bytes are filled up with zero bits |
| `TextAnswers.TestVectors` | ms-auth/internal/infrastructure/password/argon2.go:58-59 | The test vectors of section 10 of RFC 4648, without padding |
| `TextAnswers.TrimsBothSides` | ms-auth/internal/infrastructure/password/argon2.go:193 | Trimming takes away the white space on both sides and nothing else |
| `TextAnswers.SpacesAre` | ms-auth/internal/infrastructure/password/argon2.go:193 | White space is the 25 characters of the Unicode property |
| `TextAnswers.SignedReads` | ms-auth/internal/infrastructure/password/argon2.go:173-206 | A decimal reads back as the number printed, signed exactly within 64 bits, unsigned exactly below the limit and without a sign |
| `TextAnswers.OthersDoNotRead` | ms-auth/internal/infrastructure/password/argon2.go:173-206 | Nothing else reads as a number |
| `TextAnswers.LastDigit` | ms-auth/internal/infrastructure/password/argon2.go:173-206 | A digit at the end adds its value to ten times the number |
| `TextAnswers.Alphabet` | ms-auth/internal/infrastructure/password/argon2.go:58-59 | The 64 letters |
| `TextAnswers.LeadingZeros` | ms-auth/internal/infrastructure/password/argon2.go:173-206 | Zeros in front count nothing |
| `Text.SplitOfJoin` | ms-auth/internal/infrastructure/password/argon2.go:121 | Splitting undoes joining when no part holds the separator |
| `Text.JoinOfSplit` | ms-auth/internal/infrastructure/password/argon2.go:121 | Joining undoes splitting, always |
| `Normalize.ScalingInverts` | ms-poll/internal/usecase/normalize.go:38-57 | A scaling that the editor accepts, with distinct engineering bounds, is a bijection with the stated inverse |
| `Normalize.InjectiveIff` | ms-editor/internal/domain/validation.go:145-199 | An accepted scaling is injective exactly when it does not interpolate onto one engineering value |
| `Normalize.ScalingIsAffine` | ms-poll/internal/usecase/normalize.go:38-57 | Equal steps of the raw value are equal steps of the result |
| `Normalize.InterpolatesInterval` | ms-poll/internal/usecase/normalize.go:38-48 | The raw bounds go exactly to the engineering bounds and the raw interval into the engineering interval |
| `Normalize.CastIsIdempotent` | ms-poll/internal/usecase/normalize.go:167-228 | A successful cast lies in the target type's range and casting it again changes nothing |
| `Normalize.IntegerCastIff` | ms-poll/internal/usecase/normalize.go:167-228 | An integer casts exactly when it fits, and then keeps its value through the narrowing conversion |
| `Normalize.NumberToBool` | ms-poll/internal/usecase/normalize.go:261-286 | A number casts to true exactly when it is not zero |
| `NormalizeAnswers.UnsignedCastIff` | ms-poll/internal/usecase/normalize.go:288-387 | An unsigned number casts to an integer type exactly when it fits, and then to itself |
| `NormalizeAnswers.FloatCasts` | ms-poll/internal/usecase/normalize.go:288-387 | A float casts to an integer type as its integer part, cut towards zero, and one below zero to no unsigned type |
| `NormalizeAnswers.WildFloatCasts` | ms-poll/internal/usecase/normalize.go:288-387 | A float beyond 64 bits casts as whatever the conversion gives |
| `NormalizeAnswers.TextCasts` | ms-poll/internal/usecase/normalize.go:288-405 | A text casts to a numeric type as the number it spells after trimming, and not at all if it spells none |
| `NormalizeAnswers.TextToBool` | ms-poll/internal/usecase/normalize.go:261-286 | A text is true or false by its word, or else as the number that it spells |
| `NormalizeAnswers.OtherCasts` | ms-poll/internal/usecase/normalize.go:167-259 | Numbers keep their value as floats, everything formats as text, truth values stay, and nothing else casts |
| `NormalizeAnswers.NormalizedAnswers` | ms-poll/internal/usecase/normalize.go:16-58 | Bad readings pass, good ones keep tag and raw value, a failed cast makes a reading bad with the value it had |
| `NormalizeAnswers.ScaledValue` | ms-poll/internal/usecase/normalize.go:36-57 | The scaled value written out, with complete bounds, coinciding bounds, a missing bound, and each of factor and offset alone |
| `NormalizeAnswers.ForwardedOneByOne` | ms-poll/internal/usecase/normalize.go:88-126 | Readings are forwarded one by one, in order, each normalised for its own tag and only if that is known |
| `NormalizeAnswers.WarnedIffSkipped` | ms-poll/internal/usecase/normalize.go:128-154 | The tag that is warned about is the one whose complete interpolation is skipped |
| `Normalize.RawRecoverable` | ms-poll/internal/usecase/normalize.go:16-62 | From a normalised numeric reading the cast raw number can be computed back |
| `Normalize.NormalizeReading` | ms-poll/internal/usecase/normalize.go:16-62 | A good reading keeps its raw value and carries the cast and scaled one; a failed cast makes it bad and keeps its value; a bad reading passes unchanged |
| `Normalize.NormalizingPublisher.Publish` | ms-poll/internal/usecase/normalize.go:88-126 | Forwards the readings of known tags, normalised and in order, and warns about exactly the degenerate ones among them |
| `Normalize.NormalizingPublisher.WarnZeroDivisionOnce` | ms-poll/internal/usecase/normalize.go:128-154 | No tag is warned about twice |

## Left out

- HTTP handlers, WebSocket sockets, Kafka, Redis, Telegram and SQL text: input and output. Of the queries only what they do to the tables is modelled, with what PostgreSQL documents about ON CONFLICT, ON DELETE SET NULL and transactions.
- The user interfaces, JSON web tokens, key sets, the SHA-256 and Argon2 kernels and the random sources: library code or no state of their own.
- The notifier: its delivery loop lives in a repository that is not part of this model.
- Alarm acknowledgements and the audit log: they change no alarm state. Of the communication-loss scanner only its ingestions are modelled, beside the flushes, not which tags it picks.
- AlarmLog.RunReplaysIff: takes whole ingestions as steps, as if the scanner and deletions waited for flushes; `AlarmRaces` says when the log stays true without that.
- AlarmRaces.RunsTruthfulIff: is about one tag, and allows any number of ingestions at once, where flushes hold a mutex and only the scanner runs beside them.
- The last-value cache update of a flush: it uses the same latest-per-tag map and its failures are ignored.
- Device settings and address validation, role and scope lists, pagination, configuration loading: long but easy.
- The parsing of topic lists in the hub's Subscribe and Unsubscribe and the fan-out of values and alarms to subscribers: loops over the modelled sections and sends.
- Topic normalisation, case folding and UUID parsing: a uuid is a number with 0 for nil. In the membership cache a topic is the diagram or object it parses to with the form of its id, in the hub an opaque string.
- Timestamps are kept exactly everywhere but in the raw-value table's key, which is cut down to microseconds.
- Rounding, NaN and infinities of floats; a float beyond 64 bits converts to an arbitrary integer in `Normalize`.
- Absent collaborators (a nil repository, publisher or cache): every collaborator is present.
- RefreshFamilies.RunsKeepFamilies: takes whole calls as steps; with rotations taken apart it does not hold, and `RotationRaces` says when a token is exchanged twice, `RevocationRaces` when a family outlives its revocation.
- AdminSafety.RunsKeepAdmin: takes whole calls as steps; `AdminRaces` says when an admin survives with guard and write apart. The guard's own reads of the user, its roles and the count are one step there.
- Of the ms-auth calls only rotations and removals of admins are taken apart; creating a user, revoking and the other admin calls stay whole.
- Hub.Hub.ReconcileConnection: covers one subscriber of a topic; the loop over the topic's subscribers is a run of such steps, between which other sections may come.
- Hub.Hub.EnsureConnectionGroups: keeps a connection's groups as a value inside the connection map, so updates of the nested maps in place and aliasing between them are not captured.
- HubRuns.RunsAreConsistent: registers only connections that hold nothing, as the server does; `HubInvariants.RegisterKeepsIndexes` says what happens otherwise.
- Debouncer.Debouncer.FlushPending: stopping, setting and firing a timer are atomic, and the state of one key is a value in the map rather than an object with its own lock; `DebouncerModel.CallbackKeepsSpacingIff` says what a late callback does.
- MembershipRuns.RunsUpToDateIff: takes the two queries of a resolve, that the diagram or object exists and which tags it has, as one step, and so an edit with the sending of its events.
- EditorModel.ToldIff: knows the editor's calls only as far as they change memberships or publish events. Objects and diagrams are created by no code of the repository, whose calls for that are not implemented, so a run may begin with any tables; names, parameters and foreign keys are not modelled.
- LimiterModel.SlidingBound: takes one key at a time, without races in the concurrent map.
- SchedulerConvergence.Convergence: is about a transition system, since the scheduler's methods wait while workers and the store go on; the class `Scheduler` holds only the parts of them that do not wait. A worker's health checks, scan ticks and readings are not modelled, only when its loop may end.
- SchedulerLimits.WaitCanEnd: says that a wait can end, as `SchedulerProgress.CanFinish` says of all the scheduler's work, not that it does: fairness between a cancelled context and a retry timer is not modelled.
- SchedulerConvergence.DrainedAgrees: tag order inside a device's list is left out of a worker's configuration, because copying a snapshot shuffles it.
- Snapshots.CloneSnapshot: tags of a snapshot are non-nil, as copying requires; the optional parts and raw bytes of a device or tag are values, so sharing below the device and tag objects is not captured. A nil map or slice counts as an empty one.
- AlarmEvaluator.ChatterBound: is stated for the high side; the low side follows through `AlarmEvaluator.MirrorImage` when no value reaches both sides.
- Normalize.CastIsIdempotent: formatting a string gives the string itself, as the formatting library does; other formatting is arbitrary.
- Argon2.Hasher.Hash: takes the random salt as a parameter.
