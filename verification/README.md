# Models and proofs for the jackal XMPP server

jackal keeps several indexes and protocol states whose correctness spans many handlers: the two stored copies of
every subscription, a cluster-wide index that every node mirrors, the registry of client streams, the client and
server stream machines, SCRAM with peppered salts, dialback, and a handful of algorithms on plain data (the stanza
parser, capability strings, paging, archive filters and trimming, data forms, composite keys). This project models
them in Dafny and proves what holds in every run and for every input. Where something that looks promised does not
hold of the code, the model keeps the code as it is, a lemma shows an input on which it fails, and a second one says
exactly when it holds.

Code that updates fields is modelled as a class whose methods are proved against a function on the abstract state
(`Next`, `Apply`, `ParseFrom`, `Answer`, ...); the theorems are about that function and its runs. Code that only
computes is modelled by functions.

| module | part of the server |
|---|---|
| `Roster` | subscriptions between users of one domain, notifications, presence broadcasts |
| `ClusterIndex` | the mirrored resource index over a shared key-value log |
| `StreamRegistry` | anonymous and bound client streams, resource conflicts, session limit |
| `C2SStream` | the seven-state client stream machine |
| `MessageRouting`, `Hooks` | what becomes of a message: hooks, routing, second attempt, offline queue |
| `Scram` | from user creation to the accepted client |
| `Dialback`, `OutStream` | dialback keys and registrations, the receiving stream, the pending queue of outgoing streams |
| `XmlParser` | the stack parser against the recursive reading of nested tags |
| `Capabilities`, `CapabilityListings` | the text behind a capability hash, worked listings, and form validation |
| `Paging`, `ArchiveFilters`, `ArchiveTrim` | result sets, archive queries, size-limited archives |
| `DataForms` | data forms to XML and back |
| `KeyCodec`, `ClusterKeys` | resource keys and stream-management ids; what the cluster index loses over keys that cannot be taken apart |
| `Text`, `Sequences`, `Options` | splitting, byte order, numerals; images, sorting with ties in any order; missing values |

## What the code does not do

These are places where the code meets its evident intention only under a condition. For each a lemma gives the exact
condition, and another an input or a run on which it fails.

- A `subscribed` for a user without an item, and a roster set that creates an item with `ask`, leave one stored half
  without its counterpart; these two are the only steps that do (`Roster.StepInStep`, `Roster.WithoutKeepsCopiesDrift`).
- An `unsubscribe`, and an `unsubscribed`, also end the opposite subscription when that is the only one left
  (`Roster.UnsubscribeIsOneWay`, `Roster.UnsubscribedIsOneWay`, `Roster.OppositeIsLost`).
- `Unregister` searches by resource name, so a stream unregistered a second time removes whoever holds its address by
  then (`StreamRegistry.UnregisterOwnOnly`, `StreamRegistry.UnregisteredTwice`).
- A message whose archival is announced by a failing hook is both kept and refused (`MessageRouting.ProcessMessage`,
  `MessageRouting.KeptAndRefused`).
- A pepper key that is called "none" is not found again (`Scram.PepperFoundAgain`, `Scram.NoneIsNotFoundAgain`), and a
  first-message attribute without an equals sign changes the rebuilt message (`Scram.RenderAttributes`,
  `Scram.BareAttributeIsLost`).
- A username with a comma or an equals sign is looked up in its escaped form, so that its owner is refused
  (`Scram.Login`, `Scram.SaslnameExact`; for example `a=b`, which is sent as `a=3Db`).
- The domain of a dialback key element is not compared with the domain of the stream header
  (`Dialback.MatchesThroughout`, `Dialback.DomainsMayDiffer`).
- The header that follows an authentication by certificate may name another domain than the certificate did
  (`Dialback.CertifiedKeptExactly`, `Dialback.CertifiedMayDiffer`).
- A resource name with an at sign or a slash stops every batch that holds it, and every snapshot taken while it is
  stored (`ClusterKeys.ProcessRawEvents`, `ClusterKeys.ReadSnapshot`).
- With a positive page size a request for what comes after the last id panics, and so does the last page of an empty
  set asked for with an index (`Paging.PanicsExactly`); a page before an id holds the id itself when fewer than a
  page precede it (`Paging.BeforeExcludesAnchor`); an empty id asks for the first page (`Paging.AfterIsNextIndex`).
- Forms that pass validation need not have one FORM_TYPE each (`Capabilities.OneTypeEach`,
  `Capabilities.ValidatedFormWithoutType`), and identities that differ only in their names make the hashed text
  ambiguous (`Capabilities.VerTextExact`, `Capabilities.SwappedTextDiffers`).
- Anchors that are not found, an "after" id behind the "before" id and a start bound later than every message are
  ignored (`ArchiveFilters.AnchorsAnsweredExactly`, `ArchiveFilters.TimesAnsweredExactly`,
  `ArchiveFilters.LostAnchorReturnsEverything`, `ArchiveFilters.UnknownAnchorWantsNothing`,
  `ArchiveFilters.CrossedAnchorsIgnoreAfter`, `ArchiveFilters.LateStartKeepsEverything`).
- Trimming follows decimal strings, so with room for one message the ninth stays and the tenth is dropped
  (`ArchiveTrim.DropsOldestExactly`, `ArchiveTrim.OrderKeptExactly`, `ArchiveTrim.TenthIsDropped`).
- A stanza that an authenticated outgoing stream fails to write is lost, and a failed write while the pending queue is
  flushed leaves the whole queue in place, including what was sent (`OutStream.RunConserves`,
  `OutStream.FailedFlushHappens`).

## Model

| member | source | states |
|---|---|---|
| `Roster.StepInStep` | pkg/module/roster/roster.go:275-506 | from agreeing copies, a step leaves them agreeing if and only if it is not an approval of a user without an item or a roster set creating an item with ask; and then its effect is a function of one directed and one pending relation |
| `Roster.InStepIsStored` | pkg/module/roster/roster.go:724-787 | the copies agree if and only if items and notifications are the stored form of one directed and one pending relation, disjoint, with both items present |
| `Roster.SubscribeInStep` | pkg/module/roster/roster.go:275-321 | a request keeps the copies agreeing and adds one pending pair, or nothing if the subscription is on |
| `Roster.SubscribedInStep` | pkg/module/roster/roster.go:323-383 | an approval keeps the copies agreeing exactly when the approved user holds an item; then the pair moves from pending to subscribed |
| `Roster.UnsubscribeInStep` | pkg/module/roster/roster.go:385-438 | an unsubscribe keeps the copies agreeing and cancels the pair, and the opposite pair too if that was alone |
| `Roster.UnsubscribedInStep` | pkg/module/roster/roster.go:440-506 | a refusal drops the pending pair; a cancellation cancels the subscribed pair |
| `Roster.UpdateInStep` | pkg/module/roster/roster.go:619-646 | a roster set keeps the copies agreeing exactly when it creates no item with ask, and then changes no relation |
| `Roster.RemoveInStep` | pkg/module/roster/roster.go:648-722 | a removal ends both directions and the pending request |
| `Roster.RunInStep` | pkg/module/roster/roster.go:165-181 | every run of such steps keeps the copies agreeing and is a run of the relation |
| `Roster.ReachableInStep` | pkg/module/roster/roster.go:275-506 | in every such run from the empty server, u's item is to/both exactly when c's is from/both, a notification is stored exactly when ask is set, and ask implies none/from |
| `Roster.WithoutKeepsCopiesDrift` | pkg/module/roster/roster.go:358-378 | one approval out of nowhere, or one set ask, breaks the agreement for every pair of distinct users |
| `Roster.UnsubscribeIsOneWay` | pkg/module/roster/roster.go:395-428 | an unsubscribe ends exactly the sender's subscription if and only if the contact is not the only subscribed side |
| `Roster.UnsubscribedIsOneWay` | pkg/module/roster/roster.go:454-494 | the same of a cancellation, or it refuses a pending request |
| `Roster.OppositeIsLost` | pkg/module/roster/roster.go:385-506 | for any two users, a two-step run after which either handler ends the other's only subscription |
| `Roster.ChecksAgree` | pkg/module/xep0012/last.go:280-289 | in every run the check on the contact's item and the service-discovery check on the user's item (pkg/module/xep0030/account_provider.go) give the same answer |
| `Roster.StepLabels` | pkg/module/roster/roster.go:619-646 | a roster set replaces the groups and, if it gives one, the name; a request or an approval adds an item without name and groups if there was none; a removal takes one item away; no step touches any other name or group |
| `Roster.ReachableLabels` | pkg/module/roster/roster.go:619-722 | in every run from the empty server, a user lists exactly the contacts last set, requested or approved rather than removed, with the groups of the last roster set and the last name that was given since the removal |
| `Roster.UpdateLabels` | pkg/module/roster/roster.go:624-641 | the name and groups after a roster set, and that all others stay |
| `Roster.StepNews` | pkg/module/roster/roster.go:275-722 | with agreeing copies the routed stanzas are exactly the news: availability and approval go to a user exactly when it becomes subscribed, unavailability exactly when it loses its subscription unless that was the opposite one of an unsubscribe or cancellation, a request exactly when it becomes pending |
| `Roster.RosterModule.constructor` | pkg/module/roster/roster.go:61-77 | starts with nothing stored, copies agreeing |
| `Roster.RosterModule.ProcessSubscribe` | pkg/module/roster/roster.go:275-321 | the new state, and that the request is forwarded unless it is already on or pending |
| `Roster.RosterModule.ProcessSubscribed` | pkg/module/roster/roster.go:323-383 | the new state, and that the approval and the contact's presences go out unless the subscription was on |
| `Roster.RosterModule.GrantItemFrom` | pkg/module/roster/roster.go:332-354 | the contact's item gains its from half, created if missing |
| `Roster.RosterModule.DropItemTo` | pkg/module/roster/roster.go:395-407 | the user's item loses its to half, and its from half unless both were on |
| `Roster.RosterModule.DropItemFrom` | pkg/module/roster/roster.go:412-428 | the contact's item loses its from half, and its to half unless both were on |
| `Roster.RosterModule.ProcessUnsubscribe` | pkg/module/roster/roster.go:385-438 | the new state, the forwarded stanza, and unavailable presences exactly if the user was subscribed |
| `Roster.RosterModule.ProcessUnsubscribed` | pkg/module/roster/roster.go:440-506 | the new state, the forwarded stanza, and unavailable presences exactly if a subscription was cancelled |
| `Roster.RosterModule.UpdateItem` | pkg/module/roster/roster.go:619-646 | the groups are the given ones, the name is the given one or the old one if none is given, subscription and ask are kept, every other item stays; a new item takes none and the given ask |
| `Roster.RosterModule.RemoveItem` | pkg/module/roster/roster.go:648-722 | the new state, and which unsubscribe, unsubscribed and unavailable stanzas go out, in order |
| `Roster.RosterModule.Handle` | pkg/module/roster/roster.go:165-181 | every request is a step; with agreeing copies it is a step of the relation and the stanzas are the news of it |
| `Roster.RosterModule.DeleteNotification` | pkg/module/roster/roster.go:775-787 | reports and removes exactly the one notification |
| `Roster.RosterModule.RoutePresencesFrom` | pkg/module/roster/roster.go:817-831 | one presence per resource of the user |
| `Roster.RosterModule.ProcessProbe` | pkg/module/roster/roster.go:508-536 | answered by exactly the available resources, and only to a subscriber |
| `Roster.RosterModule.Broadcast` | pkg/module/roster/roster.go:602-610 | one presence to every contact whose item is from/both, none to others, none twice |
| `Roster.RosterModule.ContactPresences` | pkg/module/roster/roster.go:580-595 | exactly the resources of the contacts whose item is to/both |
| `Roster.RosterModule.ProcessAvailability` | pkg/module/roster/roster.go:538-617 | first availability: own resources, stored requests and contacts' presences; always: the broadcast |
| `Roster.AvailabilityReachesSubscribers` | pkg/module/roster/roster.go:538-617 | with agreeing copies the broadcast reaches exactly the users whose own roster says to/both, and the newcomer hears exactly of those who ask and those who list it as a subscriber |
| `ClusterIndex.OverlapReplay` | pkg/cluster/resourcemanager/kvmanager.go:230-260 | a snapshot at t followed by a replay from w up to c, with w before t before c, is the fold of the log up to c |
| `ClusterIndex.FoldAt` | pkg/cluster/resourcemanager/kvmanager.go:270-292 | a log decides every key it touches whatever was there before, and leaves the others alone |
| `ClusterIndex.StepKeeps` | pkg/cluster/resourcemanager/kvmanager.go:147-318 | every put, delete, watch, snapshot and delivery by any of N nodes keeps every node's memory a mirror of what its phase promises |
| `ClusterIndex.RunKeeps` | pkg/cluster/resourcemanager/kvmanager.go:147-318 | the same for every run |
| `ClusterIndex.AppendKeeps` | pkg/cluster/resourcemanager/kvmanager.go:270-292 | a write by one node does not disturb what another node holds |
| `ClusterIndex.OwnWriteKeeps` | pkg/cluster/resourcemanager/kvmanager.go:147-160 | a write to the store and to memory at once keeps the writer a mirror |
| `ClusterIndex.DeliverKeeps` | pkg/cluster/resourcemanager/kvmanager.go:270-292 | a batch moves the mirror of foreign keys to the new cursor and leaves own keys at the store |
| `ClusterIndex.SnapshotKeeps` | pkg/cluster/resourcemanager/kvmanager.go:230-268 | the snapshot makes the memory the store |
| `ClusterIndex.NodeMirrorsLog` | pkg/cluster/resourcemanager/kvmanager.go:230-318 | in every run own entries match the store, and once the cursor has passed the snapshot the others match the store as of the cursor |
| `ClusterIndex.DrainedIsFold` | pkg/cluster/resourcemanager/kvmanager.go:230-318 | a node that has drained the log holds exactly the store |
| `ClusterIndex.DrainedNodesAgree` | pkg/cluster/resourcemanager/kvmanager.go:162-183 | all drained nodes hold the same index |
| `ClusterIndex.DrainedHoldsStore` | pkg/cluster/resourcemanager/kvmanager.go:230-318 | wherever the invariant holds, a drained node holds exactly the store |
| `ClusterIndex.DrainedHoldsLastPublication` | pkg/cluster/resourcemanager/kvmanager.go:147-193 | in every run a drained node knows of each resource what its own node last published, and nothing of those last withdrawn or never published |
| `ClusterIndex.StoreIsLastPublication` | pkg/cluster/resourcemanager/kvmanager.go:147-193 | in every run the store holds exactly the last publication of each key |
| `ClusterIndex.FoldKeyed` | pkg/cluster/resourcemanager/kvmanager.go:147-193 | the store keeps every resource under its own key |
| `ClusterIndex.SnapshotIsUnion` | pkg/cluster/resourcemanager/kvmanager.go:262-268 | any listing of the store, put one by one, lays the store over the memory |
| `ClusterIndex.PutInList` | pkg/cluster/resourcemanager/kvmanager.go:76-99 | replaces the entry of that resource or adds one, keeping names distinct |
| `ClusterIndex.DelFromList` | pkg/cluster/resourcemanager/kvmanager.go:101-131 | removes the entry of that resource and no other |
| `ClusterIndex.KvManager.constructor` | pkg/cluster/resourcemanager/kvmanager.go:134-145 | starts empty |
| `ClusterIndex.KvStore.GetAll` | pkg/cluster/resourcemanager/kvmanager.go:262-268 | lists exactly the store, in any order |
| `ClusterIndex.KvManager.InMemPut` | pkg/cluster/resourcemanager/kvmanager.go:294-309 | the nested tables represent the index with that entry set |
| `ClusterIndex.KvManager.InMemDel` | pkg/cluster/resourcemanager/kvmanager.go:311-318 | the nested tables represent the index without that key |
| `ClusterIndex.KvManager.PutResource` | pkg/cluster/resourcemanager/kvmanager.go:147-160 | one put event in the store's log, and the same event applied to the index |
| `ClusterIndex.KvManager.DelResource` | pkg/cluster/resourcemanager/kvmanager.go:185-193 | one delete event in the store's log, and the same event applied to the index |
| `ClusterIndex.KvManager.TakeSnapshot` | pkg/cluster/resourcemanager/kvmanager.go:230-260 | the memory becomes the store laid over what the node had put itself, in whatever order the store lists it |
| `ClusterIndex.KvManager.ProcessKVEvents` | pkg/cluster/resourcemanager/kvmanager.go:270-292 | foreign events applied in order, own ones skipped |
| `ClusterIndex.KvManager.GetResource` | pkg/cluster/resourcemanager/kvmanager.go:162-172 | finds a published entry of that user and resource if and only if there is one |
| `ClusterIndex.KvManager.GetResources` | pkg/cluster/resourcemanager/kvmanager.go:174-183 | exactly the index entries of that user, each once |
| `ClusterIndex.Deployment.constructor` | pkg/cluster/resourcemanager/kvmanager.go:134-145 | N fresh managers over an empty store are an initial cluster |
| `ClusterIndex.Deployment.Do` | pkg/cluster/resourcemanager/kvmanager.go:147-318 | N managers over one store refine the cluster: each of their operations is its step, and its invariant is kept |
| `ClusterIndex.Deployment.Perform` | pkg/cluster/resourcemanager/kvmanager.go:147-318 | a run of the managers is a run of the cluster |
| `ClusterIndex.DrainedAnswersAgree` | pkg/cluster/resourcemanager/kvmanager.go:162-183 | in every reachable state of N managers, drained nodes return the same resources of a user: exactly those in the store, each once |
| `StreamRegistry.StepKeepsSound` | pkg/c2s/in.go:976-1074 | under all three conflict policies no two streams share an address and no user passes its session limit, although the limit is tested by equality |
| `StreamRegistry.RunSound` | pkg/c2s/in.go:976-1074 | in every run in which a stream already gone is unregistered only while its address is free, no address is shared and no limit is passed |
| `StreamRegistry.Execute` | pkg/c2s/local_router.go:83-135 | the two-level registry refines the flat one: a run of the handlers is the run of the flat steps, and stays sound |
| `StreamRegistry.UnregisteredTwice` | pkg/c2s/local_router.go:118-135 | from the empty registry, a second unregistration of a stream whose address was taken removes the new holder |
| `StreamRegistry.StepKeepsLimit` | pkg/c2s/in.go:988-996 | no step passes a user's limit, although the test is for equality |
| `StreamRegistry.EmptySound` | pkg/c2s/local_router.go:49-56 | the empty registry is sound |
| `StreamRegistry.NobodyEvicted` | pkg/c2s/in.go:999-1030 | unless old streams are terminated on conflict, a bind leaves every other stream where it is |
| `StreamRegistry.BindByPolicy` | pkg/c2s/in.go:988-1033 | the same of the flat bind: the answer by limit, request and policy, and who goes |
| `StreamRegistry.WhyItMoves` | pkg/c2s/local_router.go:83-135 | a stream comes only by registering; it goes exactly by being unregistered, by asking for one session too many, or by making room for a stream that wants its address under terminate-old; it moves only by binding |
| `StreamRegistry.UnregisterOwnOnly` | pkg/c2s/local_router.go:118-135 | what the source removes is the stream alone if and only if the stream is registered or nobody holds the address it reports |
| `StreamRegistry.AppendBinds` | pkg/c2s/resources.go:42-53 | appending to the user's list moves that one stream in the flat map |
| `StreamRegistry.SpliceRemoves` | pkg/c2s/resources.go:55-66 | splicing removes exactly the holder of the address from the flat map |
| `StreamRegistry.SessionsAreList` | pkg/c2s/resources.go:36-40 | the length of a user's list is the number of its sessions |
| `StreamRegistry.LocalRouter.constructor` | pkg/c2s/local_router.go:49-56 | starts empty |
| `StreamRegistry.LocalRouter.Register` | pkg/c2s/local_router.go:83-94 | a new stream becomes anonymous; a known anonymous one is an error |
| `StreamRegistry.LocalRouter.Bind` | pkg/c2s/local_router.go:97-115 | an anonymous stream moves to its address; if that is taken it is registered nowhere |
| `StreamRegistry.LocalRouter.Unregister` | pkg/c2s/local_router.go:118-135 | an anonymous stream goes alone, any other takes the holder of its address; that is the stream alone if and only if it is registered or its address is free |
| `StreamRegistry.LocalRouter.Unbind` | pkg/c2s/resources.go:55-66 | takes the holder of an address away, and nobody else |
| `StreamRegistry.LocalRouter.Find` | pkg/c2s/resources.go:68-78 | the place of the stream with that resource, or that there is none |
| `StreamRegistry.LocalRouter.Stream` | pkg/c2s/local_router.go:138-147 | found if and only if the address is taken, and then its holder |
| `StreamRegistry.LocalRouter.Route` | pkg/c2s/resources.go:80-91 | delivered to exactly the holder of the address, at most one |
| `StreamRegistry.LocalRouter.BindResource` | pkg/c2s/in.go:976-1074 | refines the flat bind; too many sessions exactly at the limit, a conflict exactly for a taken address under disallow, the wanted resource exactly if it is free or the old stream is terminated, the new name if none is wanted or the wanted one is taken under override; the old holder goes exactly when it is terminated, and nobody else moves |
| `C2SStream.StepKeepsInv` | pkg/c2s/in.go:405-534 | every handler keeps the invariant of phases, flags, counters and restarts; a resume keeps it if and only if the stream is authenticated and not terminated |
| `C2SStream.CloseShape` | pkg/c2s/in.go:1076-1157 | closing ends disconnected or terminated, closes the done channel exactly on a new termination, and touches nothing else |
| `C2SStream.RunKeepsInv` | pkg/c2s/in.go:405-534 | the invariant in every run |
| `C2SStream.ReachableStream` | pkg/c2s/in.go:833-974 | in every run: authenticated and binded have the flag, connected and authenticating do not, authenticating has an authenticator, at most 5 failures, 1 abort and 3 restarts, done closed once and exactly on termination |
| `C2SStream.AuthenticatedByAccepting` | pkg/c2s/in.go:496-513 | in every run a stream is authenticated if and only if the authenticator accepted, which then happened exactly once and earlier; failures and aborts are exactly the rejections and aborts that arrived; secured, compressed, bound and session-started are owed to their events in the same way |
| `C2SStream.StepFlags` | pkg/c2s/in.go:833-974 | each flag is set, and each counter raised, by exactly one kind of event: an accepting answer that reaches the authenticator, a good STARTTLS on an unsecured stream, an accepted compression, a granted bind or a resume, an IQ that opens the session |
| `C2SStream.StepMoves` | pkg/c2s/in.go:442-534 | an open stream enters each phase for exactly one reason and is closed by exactly the elements it does not survive, the fifth rejection among them; only the timeout of a bound stream sets the timer |
| `C2SStream.RunFlags` | pkg/c2s/in.go:405-534 | the same counts from any state that meets the invariant |
| `C2SStream.OccursAt` | pkg/c2s/in.go:405-440 | what a run counts stands at some place of the run |
| `C2SStream.TerminatedIsFinal` | pkg/c2s/in.go:1102-1157 | nothing changes a terminated stream in any run |
| `C2SStream.RetriedTerminationEnds` | pkg/c2s/in.go:1102-1157 | after any number of failed terminations one undisturbed close terminates and closes done once |
| `C2SStream.InC2S.constructor` | pkg/c2s/in.go:130-186 | a new stream is connecting, secured only under direct TLS |
| `C2SStream.InC2S.HandleElement` | pkg/c2s/in.go:405-534 | an element is one step of the machine in every phase and keeps the invariant; the stream becomes authenticated exactly when the element reaches the authenticator and that accepts, and a failure is counted exactly when it rejects; the same for the other flags, and the stream ends exactly if it does not survive the element |
| `C2SStream.InC2S.ResumeSession` | pkg/c2s/in.go:289-310 | binds the stream, and keeps the invariant exactly when resuming was admissible |
| `Hooks.HookSet.constructor` | pkg/hook/hooks.go:71-75 | no handlers |
| `Hooks.HookSet.AddHook` | pkg/hook/hooks.go:79-91 | the chain gains that handler and stays in priority order; other chains are untouched |
| `Hooks.HookSet.RemoveHook` | pkg/hook/hooks.go:94-107 | the first handler with that identity goes, the others keep their order |
| `Hooks.HookSet.Run` | pkg/hook/hooks.go:111-128 | a prefix of the chain runs, all of it unless the last one stopped or failed, whose answer is the outcome |
| `Hooks.LowestIsLast` | pkg/hook/hooks.go:79-91 | a handler alone at the lowest priority is the last of its chain |
| `Hooks.StaysAlone` | pkg/hook/hooks.go:79-91 | handlers of higher priority, added before or after it, leave it alone at the lowest priority |
| `MessageRouting.RouteToFull` | pkg/c2s/router.go:141-163 | a full address reaches its resource, or resource-not-found if there is none |
| `MessageRouting.RouteToBest` | pkg/c2s/router.go:164-185 | a bare address reaches exactly the resources of highest priority, or user-not-available if all are negative; a failing hand-over reports failure, and who got the message before it |
| `MessageRouting.Route` | pkg/router/router.go:144-156 | the whole routing of a message, every error case and who got it, without sorting or searching |
| `MessageRouting.OfflineStore.constructor` | pkg/module/offline/offline.go:62-78 | an empty queue |
| `MessageRouting.OfflineStore.Archive` | pkg/module/offline/offline.go:211-251 | stored exactly if there is room; accepted messages are the delivered ones followed by the waiting ones |
| `MessageRouting.OfflineStore.Deliver` | pkg/module/offline/offline.go:181-209 | the user's queue is handed out in order and emptied, others untouched |
| `MessageRouting.OnMessageRouted` | pkg/module/offline/offline.go:120-146 | an undelivered archivable local message is stored or refused, and stops the chain; anything else goes on; a message with the no-store hint is never kept, nor one without the store hint that is neither normal nor a chat with a body |
| `MessageRouting.ArchivableByHintAndType` | pkg/module/offline/offline.go:259-267 | the no-store hint wins over the store hint and over the type, the store hint over the type; without hints exactly normal messages and chats with a body are kept |
| `MessageRouting.StartModules` | pkg/module/offline/offline.go:97-106 | whatever order the modules start in, the offline handler is alone at the lowest priority of the message-routed chain |
| `MessageRouting.RunMessageRouted` | pkg/hook/hooks.go:111-128 | through the chain's order, the offline handler sees a message exactly when every other handler let it pass; otherwise nothing is kept and one of those decides |
| `MessageRouting.Settle` | pkg/c2s/in.go:730-744 | a message handed to nobody is kept if archivable, local and there is room, and refused otherwise; one handed over gets neither |
| `MessageRouting.ProcessMessage` | pkg/c2s/in.go:678-749 | at most two attempts; undisturbed, there is a second one exactly when the resource is not there, and a message is handed to exactly those that the last attempt finds, kept while there is room if nobody is available, and answered with an error otherwise; whom it reached, also when a later hand-over failed, and when it is kept |
| `MessageRouting.RouteTwice` | pkg/c2s/in.go:678-716 | the second attempt goes to the bare address, exactly after a resource that is not there; a will-route hook may stop either |
| `MessageRouting.Conclude` | pkg/c2s/in.go:717-749 | what follows from the attempt that decides |
| `MessageRouting.KeptAndRefused` | pkg/module/offline/offline.go:237-250 | a failing announcement gives a message two fates |
| `Scram.PepperFoundAgain` | pkg/auth/pepper/keys.go:39-74 | the pepper of an earlier configuration is found under a later one if and only if it is still configured |
| `Scram.KeptKeysSuffice` | pkg/auth/pepper/keys.go:59-64 | without a key called none, still configured means kept under its id with its value |
| `Scram.NoneIsNotFoundAgain` | pkg/auth/pepper/keys.go:59-64 | a key called none stores no pepper, and brings one in once another key is in use |
| `Scram.RenderAttributes` | pkg/auth/scram.go:84-93 | the rebuilt first message is the client's own if and only if every attribute has an equals sign |
| `Scram.BareAttributeIsLost` | pkg/auth/scram.go:84-93 | a first message without an equals sign is rebuilt as an equals sign |
| `Scram.StoredIsSalted` | pkg/admin/server/service.go:142-175 | for every variant, what is stored is the salted password over salt and pepper |
| `Scram.SplitKeyAndValue` | pkg/util/strings/strings.go:18-32 | cut at the first separator, or two empty strings |
| `Scram.Authenticator.constructor` | pkg/auth/scram.go:112-138 | starts unauthenticated |
| `Scram.Authenticator.Reset` | pkg/auth/scram.go:204-212 | forgets everything of the exchange |
| `Scram.Authenticator.ParseParameters` | pkg/auth/scram.go:307-351 | header, channel-binding flag, authorization part and attributes, with every error case |
| `Scram.Authenticator.Lookup` | pkg/auth/scram.go:75-82 | the first attribute of that name |
| `Scram.Authenticator.HandleStart` | pkg/auth/scram.go:214-255 | challenged if and only if the message decodes, parses and names a known user; the challenge has the nonce, the peppered salt and the count |
| `Scram.Authenticator.GetCBindInputString` | pkg/auth/scram.go:353-365 | the encoded channel-binding input |
| `Scram.Authenticator.ExpectedFinal` | pkg/auth/scram.go:270-284 | the final message that section 3 of RFC 5802 makes of the salted password |
| `Scram.Authenticator.HandleChallenged` | pkg/auth/scram.go:257-294 | accepted if and only if the payload is the final message that the client of section 3 of RFC 5802 proves from the stored salted password over what was exchanged; the answer is the verifier that this client computes with the server key |
| `Scram.ClientFirstParses` | pkg/auth/scram.go:307-351 | a well-formed first message parses into its header, mechanism and attributes |
| `Scram.ParseVerdicts` | pkg/auth/scram.go:307-351 | which first messages are refused and why: channel binding without a mechanism for it is not authorized, any other flag than n or y and any authorization but the attribute a is malformed, a text without a comma is wrongly encoded |
| `Scram.ClientReads` | pkg/auth/scram.go:237-254 | the client of section 3 of RFC 5802 reads nonce, salt and count out of the attributes r, s and i of the challenge, and answers with its own proof |
| `Scram.SameBinding` | pkg/auth/scram.go:353-365 | server and client hash the same channel-binding input |
| `Scram.SameWithoutProof` | pkg/auth/scram.go:262-264 | the server builds the text without proof that the client builds from its header, binding data and nonce |
| `Scram.SameProofs` | pkg/auth/scram.go:270-288 | from one transcript the server computes the auth message, the proof under the client key and the verifier under the server key that section 3 of RFC 5802 defines for the client |
| `Scram.SameFirst` | pkg/auth/scram.go:84-93 | the server rebuilds the client's first message |
| `Scram.SaslnameExact` | pkg/auth/scram.go:222-232 | escaping leaves a username as it is if and only if it has no comma and no equals sign |
| `Scram.FirstExchange` | pkg/auth/scram.go:214-255 | the client is challenged, over salt and pepper, if and only if a user bears its name as it is written, escapes and all |
| `Scram.SecondExchange` | pkg/auth/scram.go:257-294 | a challenged client is accepted and gets the verifier it computes itself if the stored hash is the one its password gives |
| `Scram.Login` | pkg/auth/scram.go:189-294 | under every later configuration that still has the pepper, a client with the password given at creation, writing its name as RFC 5802 asks, is accepted in every variant if and only if the name has no comma and no equals sign, unless somebody else bears the escaped name; and then it gets the signature it expects |
| `XmlParser.ReadContent` | pkg/parser/parser.go:73-122 | reading the content of an element, of whatever nesting, only fills the top of the stack: children appended, text the last before the first child |
| `XmlParser.ReadNode` | pkg/parser/parser.go:73-167 | reading a nest of tags returns its tree, or appends it to the enclosing element |
| `XmlParser.NodeSpans` | pkg/parser/parser.go:73-122 | the tokens of a nest of tags stand where they are read |
| `XmlParser.ParseNext` | pkg/parser/parser.go:73-122 | a call between elements skips the gap, returns the next tree and stops right behind it |
| `XmlParser.ParseOpening` | pkg/parser/parser.go:86-93 | on a socket the stream header is returned at once as an element of its own |
| `XmlParser.ParseEnds` | pkg/parser/parser.go:73-122 | after any elements that were opened, of any content: the end of input, a token past the limit, the stream end tag, a tag that closes something else and a stream header end the call, each with its own outcome |
| `XmlParser.ReadOpened` | pkg/parser/parser.go:124-145 | unfinished elements of any content are left on the stack |
| `XmlParser.ParsePiece` | pkg/parser/parser.go:73-122 | the same for whole elements and the stream header alike |
| `XmlParser.ParseInvertsNodeOf` | pkg/parser/parser.go:73-167 | linearising any tree and parsing it gives the tree back |
| `XmlParser.TreeBack` | pkg/parser/parser.go:73-167 | the nest of tags written for a tree stands for that tree |
| `XmlParser.ReturnedFits` | pkg/parser/parser.go:79-83 | no element spanning more than a positive size limit is returned, on any token stream |
| `XmlParser.Parser.constructor` | pkg/parser/parser.go:63-70 | an empty stack at the start of the input |
| `XmlParser.Parser.StartElement` | pkg/parser/parser.go:124-137 | pushes an element |
| `XmlParser.Parser.CloseElement` | pkg/parser/parser.go:147-167 | pops into the parent or into the result; an error exactly if the stack is empty or the name differs |
| `XmlParser.Parser.HandleStart` | pkg/parser/parser.go:85-92 | an element is pushed; a stream header on a socket is closed at once, and is the result if nothing was open |
| `XmlParser.Parser.HandleEnd` | pkg/parser/parser.go:99-108 | the stream end tag, a tag that closes something else, the end of the outermost element and of an inner one |
| `XmlParser.Parser.HandleToken` | pkg/parser/parser.go:79-116 | one token has the effect of the recursive reading |
| `XmlParser.Parser.Parse` | pkg/parser/parser.go:73-122 | one call is the recursive reading from where the last one stopped |
| `XmlParser.ReadAll` | pkg/parser/parser.go:73-122 | repeated calls return the elements of a well-nested stream, its header among them, one by one |
| `Capabilities.VerText` | pkg/module/xep0115/caps.go:404-465 | the text is sorted identities, features and forms with sorted fields and values, ties in any order |
| `CapabilityListings.TwoIdentities` | pkg/module/xep0115/caps.go:412-424 | of two identities the first by category, then type, then language stands in front, each as category, type, language and name |
| `CapabilityListings.SimpleListing` | pkg/module/xep0115/caps.go:404-431 | the text of the listing that section 5.2 of XEP-0115 works through |
| `CapabilityListings.TwoFieldsText` | pkg/module/xep0115/caps.go:436-461 | the text of a form in the manner of section 5.3, its fields and values listed from back to front |
| `Capabilities.VerTextIsCanonical` | pkg/module/xep0115/caps.go:404-465 | any two texts of listings that differ only in the order of identities, features, forms, fields and values are equal, for tied identities that agree and distinct FORM_TYPE values and field names |
| `Capabilities.SameText` | pkg/module/xep0115/caps.go:404-465 | computing the text of two such listings gives the same text |
| `Capabilities.IdentitiesTextUnique` | pkg/module/xep0115/caps.go:412-424 | the identity part does not depend on order |
| `Capabilities.FormsTextUnique` | pkg/module/xep0115/caps.go:432-461 | the forms part does not depend on order at any level |
| `Capabilities.FormTextUnique` | pkg/module/xep0115/caps.go:436-461 | one form's part does not depend on the order of fields and values |
| `Capabilities.IdentitiesTextExact` | pkg/module/xep0115/caps.go:412-424 | for names without the separator, all admissible identity parts of a listing are equal if and only if no two identities agree in all but their names |
| `Capabilities.VerTextExact` | pkg/module/xep0115/caps.go:404-465 | the same for the whole text, with proper forms |
| `Capabilities.SwappedTextDiffers` | pkg/module/xep0115/caps.go:412-424 | swapping two neighbours that agree in all but their names changes the text |
| `Capabilities.FilterFormType` | pkg/module/xep0115/caps.go:476-485 | the fields other than FORM_TYPE, in order |
| `Capabilities.WriteIdentities` | pkg/module/xep0115/caps.go:412-424 | an admissible identity part |
| `Capabilities.WriteForm` | pkg/module/xep0115/caps.go:436-461 | an admissible text of one form |
| `Capabilities.WriteForms` | pkg/module/xep0115/caps.go:432-461 | an admissible forms part |
| `Capabilities.CountFormTypes` | pkg/module/xep0115/caps.go:379-392 | counts the FORM_TYPE values of one form, or finds a bad field |
| `Capabilities.ValidateForms` | pkg/module/xep0115/caps.go:377-402 | passes if and only if every FORM_TYPE is hidden with one value, there are as many as forms, and the values differ |
| `Capabilities.ValidatedFormWithoutType` | pkg/module/xep0115/caps.go:377-402 | a concrete pair of forms that passes although one has two FORM_TYPE fields and the other none |
| `Capabilities.OneTypeEach` | pkg/module/xep0115/caps.go:393-395 | with as many FORM_TYPE fields as forms, each form has exactly one if and only if none has two |
| `Capabilities.ValidatedIsProper` | pkg/module/xep0115/caps.go:377-402 | forms that pass meet what the text needs if and only if each form's field names are distinct and tied identities agree |
| `Capabilities.ValidatedText` | pkg/module/xep0115/caps.go:377-465 | validated listings with distinct field names have one text in whatever order they are listed |
| `Paging.WholeWalk` | pkg/module/xep0059/rsm.go:118-197 | for distinct non-empty ids, requesting page after page by the last id gives the same pages as by index, and they concatenate to the result set |
| `Paging.WalksAgree` | pkg/module/xep0059/rsm.go:154-197 | the two walks agree from every page on, indexes included |
| `Paging.WalkByIndexCovers` | pkg/module/xep0059/rsm.go:154-174 | walking by index from a page concatenates to the rest of the set, every page found |
| `Paging.AfterIsNextIndex` | pkg/module/xep0059/rsm.go:118-197 | the request after the last id of page k gives page k + 1 if and only if that id is not empty |
| `Paging.LastPageIsLast` | pkg/module/xep0059/rsm.go:235-241 | the answer to a last-page request, whatever else it names, is the last page that an index can ask for |
| `Paging.WalkEndsWithLast` | pkg/module/xep0059/rsm.go:118-152 | it is the page with which every walk by index ends |
| `Paging.OneThingIsAsked` | pkg/module/xep0059/rsm.go:118-152 | of what a request names, the index comes before the id to start after, and that before the id to end before |
| `Paging.PageDescribesItself` | pkg/module/xep0059/rsm.go:154-223 | every page is a stretch of the set, full unless it is the last, and its result tells the ids at both ends, the count, whether it is the last and the index where it begins |
| `Paging.BeforeExcludesAnchor` | pkg/module/xep0059/rsm.go:118-223 | the page requested before an id is the previous items if at least a page precedes it, and holds the id if and only if fewer do; an empty id asks for the first page |
| `Paging.AfterUndoesBefore` | pkg/module/xep0059/rsm.go:118-223 | after the last id of the page before an anchor comes the page that starts at the anchor, if and only if that id is not empty, or the anchor's is and one page precedes it |
| `Paging.PanicsExactly` | pkg/module/xep0059/rsm.go:118-152 | with a positive page size, exactly which requests panic |
| `Paging.NoSizeNoPage` | pkg/module/xep0059/rsm.go:118-152 | without a page size only the count of a non-empty set can be had |
| `Paging.CollectPage` | pkg/module/xep0059/rsm.go:163-170 | the loop cuts out the stretch of at most that many items, and marks the end |
| `Paging.GetIDIndex` | pkg/module/xep0059/rsm.go:225-233 | the first position of an id |
| `Paging.GetPageByIndex` | pkg/module/xep0059/rsm.go:154-174 | the page at an index, or not found |
| `Paging.GetPageAfterID` | pkg/module/xep0059/rsm.go:176-197 | the page after an id, or not found |
| `Paging.GetPageBeforeID` | pkg/module/xep0059/rsm.go:199-223 | the page before an id, or not found |
| `Paging.GetResultSetPage` | pkg/module/xep0059/rsm.go:118-152 | which of the requests is answered, in the source's order of precedence |
| `ArchiveFilters.CutsAreFilter` | pkg/storage/boltdb/archive.go:184-274 | on a stamp-ordered archive with distinct ids, with anchors in order and a start bound that some message passes, the cuts return exactly the messages meeting all conditions, in order |
| `ArchiveFilters.AnchorsAnsweredExactly` | pkg/storage/boltdb/archive.go:229-248 | anchors, present or lost, with any address, are answered rightly if and only if a guard on positions holds: each is there or stands outside what is there on the side where it cuts nothing, and two that are there are in order unless nothing is in front of before |
| `ArchiveFilters.CutsEffect` | pkg/storage/boltdb/archive.go:184-274 | what every request returns: the messages that pass the address and what is in effect of the rest |
| `ArchiveFilters.PresentAnchorsExactly` | pkg/storage/boltdb/archive.go:229-248 | two anchors of the archive are answered rightly if and only if after stands in front of before, or nothing does |
| `ArchiveFilters.LostAnchorReturnsEverything` | pkg/storage/boltdb/archive.go:230-247 | an anchor, before or after, that is unknown or removed by the address test returns everything |
| `ArchiveFilters.UnknownAnchorWantsNothing` | pkg/storage/boltdb/archive.go:229-248 | though nothing stands before or after an id that is not in the archive |
| `ArchiveFilters.TimesAnsweredExactly` | pkg/storage/boltdb/archive.go:250-272 | a request whose anchors pass their guard is answered rightly if and only if a start bound, if given, has a later message, or there is no message, or the end leaves none |
| `ArchiveFilters.CutStartIsFilter` | pkg/storage/boltdb/archive.go:251-261 | the start cut is the start test if and only if the list is empty or some message is later |
| `ArchiveFilters.CutEndIsFilter` | pkg/storage/boltdb/archive.go:262-272 | the end cut is the end test |
| `ArchiveFilters.ConversationBothWays` | pkg/storage/boltdb/archive.go:184-212 | with an address a query returns exactly the messages from it or to it, an address without a resource standing for all of its account |
| `ArchiveFilters.CutBeforeIsFilter` | pkg/storage/boltdb/archive.go:230-238 | the before cut is the position test when the id is in the list |
| `ArchiveFilters.CutAfterIsFilter` | pkg/storage/boltdb/archive.go:239-247 | the after cut is the position test when the id is in the list |
| `ArchiveFilters.LateStartKeepsEverything` | pkg/storage/boltdb/archive.go:251-261 | a start bound later than every message leaves the list uncut |
| `ArchiveFilters.CrossedAnchorsIgnoreAfter` | pkg/storage/boltdb/archive.go:229-248 | an after id behind the before id is ignored |
| `ArchiveFilters.FilterByIds` | pkg/storage/boltdb/archive.go:213-248 | the id part of the request as cuts |
| `ArchiveFilters.FilterByTime` | pkg/storage/boltdb/archive.go:250-272 | the time part of the request as cuts |
| `ArchiveFilters.ApplyFilters` | pkg/storage/boltdb/archive.go:184-274 | address, ids and times in the source's order; a malformed address is an error |
| `ArchiveTrim.SurvivorsOfRun` | pkg/module/xep0313/mam.go:442-465 | after every run an archive is within its limit and is exactly the end, in cursor order, of all it held and all that was inserted |
| `ArchiveTrim.RunIsTrimmedFull` | pkg/module/xep0313/mam.go:442-465 | over every run, trimming after each message is trimming once at the end |
| `ArchiveTrim.TrimThenStore` | pkg/storage/boltdb/archive.go:96-131 | trimming before a store makes no difference after it |
| `ArchiveTrim.RunKeepsNewest` | pkg/module/xep0313/mam.go:442-465 | over any run whose sequence numbers keep their length the archive is exactly the newest messages in order of arrival |
| `ArchiveTrim.StoreDropsOldest` | pkg/storage/boltdb/archive.go:96-131 | while live numbers have one length cursor order is insertion order and exactly the oldest go |
| `ArchiveTrim.OrderKeptExactly` | pkg/storage/boltdb/op.go:50-64 | insertion order survives a new message if and only if no live number, scaled to its length, exceeds it; then the oldest go |
| `ArchiveTrim.DropsOldestExactly` | pkg/storage/boltdb/archive.go:96-131 | a store drops the oldest if and only if there is room, or no room at all, or the entry in front is the oldest and its number, scaled to the new one's length, does not exceed it |
| `ArchiveTrim.DecimalLess` | pkg/storage/boltdb/op.go:59-63 | byte order of sequence keys, as arithmetic |
| `ArchiveTrim.InsertKeepsValid` | pkg/storage/boltdb/op.go:50-64 | an insertion adds exactly one entry and keeps cursor order |
| `ArchiveTrim.StoreKeepsValid` | pkg/storage/boltdb/archive.go:96-131 | insert and trim keep cursor order and the limit |
| `ArchiveTrim.TenthIsDropped` | pkg/storage/boltdb/op.go:59-63 | after nine messages in an archive with room for one, the tenth is dropped and the ninth stays |
| `ArchiveTrim.Bucket.constructor` | pkg/storage/boltdb/archive.go:33-35 | an empty bucket |
| `ArchiveTrim.Bucket.InsertSeq` | pkg/storage/boltdb/op.go:50-64 | the next number, at its place in key order |
| `ArchiveTrim.Bucket.CountKeys` | pkg/storage/boltdb/op.go:125-143 | the number of keys |
| `ArchiveTrim.Bucket.Delete` | pkg/storage/boltdb/op.go:81-92 | that key goes, and no other |
| `ArchiveTrim.Bucket.DeleteOldest` | pkg/storage/boltdb/archive.go:96-131 | the front of cursor order beyond the limit goes |
| `ArchiveTrim.Bucket.ArchiveMessage` | pkg/module/xep0313/mam.go:442-465 | insert, then trim |
| `Dialback.RegisteredIsOn` | pkg/s2s/dialback.go:35-65 | for space-free domains a stream's request is on exactly for the pair it was registered with |
| `Dialback.KeyIsForOneRequest` | pkg/s2s/dialback.go:27-33 | under a keyed hash that tells texts apart, a key is good for exactly one pair of space-free domains and one stream |
| `Dialback.Exchange` | pkg/s2s/out.go:380-414 | the key and request of an outgoing stream pass its own server's verification when the peer relays them, the peer's stream is then authorised, and the same relay does not pass twice |
| `Dialback.AnswersWithinRegistrations` | pkg/s2s/in.go:661-707 | in every run the valid answers for a stream id, to anybody, with what is still open, do not exceed its registrations |
| `Dialback.Authority.constructor` | pkg/s2s/in.go:93-150 | no registrations |
| `Dialback.Authority.StartDialback` | pkg/s2s/out.go:380-401 | the key is the keyed hash of sender, target and stream id; the element sent is the only one that, relayed under that stream id, this server accepts |
| `Dialback.Authority.VerifyDialbackKey` | pkg/s2s/in.go:661-707 | valid if and only if the target is local, the request is on and the key is right; a valid answer uses the registration up |
| `Dialback.InStepKeeps` | pkg/s2s/in.go:310-350 | a question under way is for the stream's own id and is not touched until answered; only a valid answer authorises |
| `Dialback.SysRunKeeps` | pkg/s2s/in.go:604-659 | in every interleaved run of any number of receiving streams and one authority, the invariant of every stream |
| `Dialback.AuthorisedIsPaidFor` | pkg/s2s/in.go:604-707 | in every interleaved run, an authorised stream was vouched for by a valid answer to a question under its own id, with the right key, and that answer consumed a registration made before it by the domain that the key element named |
| `Dialback.MatchingKeptExactly` | pkg/s2s/in.go:257-350 | the domain asked about or vouched for stays the domain of the header if and only if the next key element, and the next header, name it, which the source does not test |
| `Dialback.MatchesThroughout` | pkg/s2s/in.go:257-350 | in a run the two domains agree throughout if and only if every element of the stream passes that test |
| `Dialback.SpeaksForRegistrant` | pkg/s2s/in.go:604-659 | then an authorised stream speaks for the domain that made the registration which its authorisation consumed |
| `Dialback.DomainsMayDiffer` | pkg/s2s/in.go:604-636 | a run after which a stream speaks for the domain of its header and was vouched for by another |
| `Dialback.StepGains` | pkg/s2s/in.go:548-602 | security, authentication and authorisation are each gained by exactly one event (a good STARTTLS; SASL EXTERNAL on a secured stream under a certificate that names the sender; a valid answer) and never lost |
| `Dialback.StepMoves` | pkg/s2s/in.go:257-350 | the stream enters each phase for exactly one reason, is closed by exactly the elements that offend, takes its sender from the header and its id from a restart, and puts the question that a key element raises |
| `Dialback.HasIffGained` | pkg/s2s/in.go:548-659 | in every interleaved run a stream has each of the three if and only if it started with it or one step gained it |
| `Dialback.GainedOnce` | pkg/s2s/in.go:586-602 | and no two steps did |
| `Dialback.HeaderBefore` | pkg/s2s/in.go:257-267 | a stream past its header speaks for the domain that its last header named |
| `Dialback.AuthenticatedIsCertified` | pkg/s2s/in.go:548-602 | in every interleaved run an authenticated stream has shown, in exactly one step, a certificate for the domain that its last header before that step had named |
| `Dialback.ProcessedIsEarned` | pkg/s2s/in.go:310-350 | in every interleaved run, before a stanza is processed the stream was secured, and it has shown such a certificate or was vouched for by an answer that consumed a registration |
| `Dialback.CertifiedKeptExactly` | pkg/s2s/in.go:257-267 | an authenticated stream goes on to speak for the certified domain if and only if the header after the restart names it again, which the source does not test |
| `Dialback.CertifiedMayDiffer` | pkg/s2s/in.go:586-602 | a run after which a stream certified for one domain speaks for another |
| `Dialback.AnsweredBefore` | pkg/s2s/in.go:638-659 | nothing but a valid answer of the authority vouches for a stream |
| `Dialback.RegisteredBefore` | pkg/s2s/dialback.go:35-57 | an open request was registered by an earlier step and has stood since |
| `Dialback.InS2S.constructor` | pkg/s2s/in.go:93-150 | a new receiving stream |
| `Dialback.InS2S.HandleElement` | pkg/s2s/in.go:238-350 | one step, invariant kept; the stream becomes authenticated exactly by SASL EXTERNAL under a certificate that names its sender, and secured exactly by a good STARTTLS; a stanza is processed exactly on a secured stream that is authenticated or authorised; an element never authorises and never touches a question under way |
| `Dialback.InS2S.Named` | pkg/s2s/in.go:556-563 | true exactly if some certificate of the peer names the sender |
| `Dialback.InS2S.HandleDialbackResult` | pkg/s2s/in.go:638-659 | authorised exactly by a valid answer that the rate limiter lets through, invariant kept |
| `OutStream.RunNeverReorders` | pkg/s2s/out.go:319-342 | in every run, with writes failing at will, the wire is a subsequence of what was submitted and the queue is flushed at most once |
| `OutStream.RunConserves` | pkg/s2s/out.go:499-538 | after every run the wire followed by the queue is what was submitted, if and only if no event was an unwritten stanza of an authenticated stream or a flush failing after something was written |
| `OutStream.NoneLost` | pkg/s2s/out.go:499-538 | the same from the start, and then everything submitted is on the wire of an authenticated stream |
| `OutStream.StepKeepsInv` | pkg/s2s/out.go:319-342 | one event keeps order, and flushes only from an unauthenticated stream |
| `OutStream.StepConserves` | pkg/s2s/out.go:499-538 | one event conserves if and only if it is none of the two |
| `OutStream.WritesNeverBreak` | pkg/s2s/out.go:540-555 | a run without a failed write has none of the two |
| `OutStream.FailedFlushKeepsQueue` | pkg/s2s/out.go:499-510 | a write, or the hook behind it, that fails during the flush, after dialback or after SASL, leaves what was sent in the queue |
| `OutStream.FailedFlushHappens` | pkg/s2s/out.go:453-510 | a run from the start that ends so |
| `OutStream.StepFlags` | pkg/s2s/out.go:419-451 | a SASL success while authenticating, and nothing else, authenticates; a good proceed while securing secures; the queue is sent by the confirmed key or by the features after SASL |
| `OutStream.FeaturesLead` | pkg/s2s/out.go:349-417 | where the features of the peer lead: STARTTLS first, then dialback verification for a dialback stream, SASL EXTERNAL if offered, and a key only otherwise |
| `OutStream.StepMoves` | pkg/s2s/out.go:419-486 | the other phases are left for one reason each; any other element ends the stream |
| `OutStream.AcceptedBefore` | pkg/s2s/out.go:434-469 | in every run a stream that counts as authenticated or has sent its queue was accepted by an earlier event |
| `OutStream.SecuredBefore` | pkg/s2s/out.go:419-432 | a stream that became secured was secured by an earlier event |
| `OutStream.WireIsEarned` | pkg/s2s/out.go:499-510 | in every run from the start nothing is on the wire before the stream was secured and the peer accepted it |
| `OutStream.OutS2S.constructor` | pkg/s2s/out.go:123-178 | an empty queue |
| `OutStream.OutS2S.SendOrEnqueue` | pkg/s2s/out.go:530-538 | keeps order, and conserves exactly if the stanza is written or queued |
| `OutStream.OutS2S.FinishAuthentication` | pkg/s2s/out.go:499-510 | the queue goes out element by element and is emptied, or stays and the stream closes |
| `OutStream.OutS2S.HandleElement` | pkg/s2s/out.go:319-342 | keeps order and flushes at most once, and conserves exactly if it breaks no flush; authenticated exactly by a SASL success while authenticating, secured exactly by a good proceed while securing |
| `DataForms.FormBack` | pkg/module/xep0004/form.go:52-148 | decoding an encoded form gives the same form if and only if its type is valid and every field type at every level is valid or empty, and fails otherwise |
| `DataForms.FieldBack` | pkg/module/xep0004/field.go:78-184 | the same for a field, with values, options and validator |
| `DataForms.ValidatorBack` | pkg/module/xep0004/validate.go:62-116 | each validator comes back from its element |
| `DataForms.ValidateWritten` | pkg/module/xep0004/validate.go:62-120 | a validation element carries its namespace, data type and validator as XEP-0122 writes them |
| `DataForms.FieldReadExactly` | pkg/module/xep0004/field.go:78-87 | a field element is read if and only if it names no type or one of the ten |
| `DataForms.FormTypesExactly` | pkg/module/xep0004/form.go:52-60 | a form element is read if and only if it has one of the four types |
| `DataForms.FormChildren` | pkg/module/xep0004/form.go:95-135 | the children of a form by name: fields of items and of the header do not leak to the form's level |
| `DataForms.FieldChildren` | pkg/module/xep0004/field.go:140-184 | the children of a field by name: values of options do not leak to the field's level |
| `DataForms.FieldElement` | pkg/module/xep0004/field.go:140-184 | the builder produces the field's element |
| `DataForms.FormElement` | pkg/module/xep0004/form.go:95-135 | the builder produces the form's element |
| `DataForms.FieldsFromElement` | pkg/module/xep0004/form.go:137-148 | all fields in order, or failure at the first bad one |
| `DataForms.NewFormFromElement` | pkg/module/xep0004/form.go:52-92 | the reader decodes the form, with every error case |
| `KeyCodec.ExtractInvertsKey` | pkg/cluster/resourcemanager/kvmanager.go:373-416 | a key gives back its own triple or an error, never another; it gives it back if and only if no part has an at sign and neither resource nor instance has a slash |
| `KeyCodec.LocalKeyIsOwn` | pkg/cluster/resourcemanager/kvmanager.go:397-399 | a node recognises exactly its own keys |
| `ClusterKeys.DecodeInverts` | pkg/cluster/resourcemanager/kvmanager.go:332-416 | a stored event is read back as itself, or not at all if a part of its key holds a separator |
| `ClusterKeys.ProcessRawEvents` | pkg/cluster/resourcemanager/kvmanager.go:270-292 | of a batch, exactly what stands in front of the first foreign key that cannot be taken apart is applied, and all of it if and only if there is none |
| `ClusterKeys.ReadSnapshot` | pkg/cluster/resourcemanager/kvmanager.go:320-330 | the snapshot is read if and only if every stored key can be taken apart |
| `KeyCodec.DecodeInvertsSMID` | pkg/module/xep0198/stream.go:495-517 | decoding undoes encoding if and only if neither address nor nonce has a NUL, and fails otherwise |
| `KeyCodec.GenerateNonce` | pkg/module/xep0198/stream.go:323-326 | generated nonces have no NUL |

## Left out

- Roster: user deletion, roster versions and pushes, and the handling of remote domains.
- Cluster index: a member going down; local put and delete are taken as atomic with their store write; instance ids have no slash, and in `ClusterIndex` itself keys can be taken apart.
- Registry: one node, whose resource manager lists exactly the bound streams; resuming and a failing resource deletion are not registry steps, and hibernation that halts the end of an old stream is not modelled.
- C2S machine: failing send hooks, a failing rate limiter, and hooks that halt the handling of a received element, which then is no step.
- Message routing: will-route hooks that change the addressee; IQ and presence stanzas; components; locks around the offline queue.
- SCRAM: hashing, key derivation and base64 enter by their laws; channel binding only for the two mechanisms the code knows; stored users other than those made by user creation.
- Dialback: hooks that halt the handling of a received element; one authority, to which all questions go; the key-value store that does nothing, under which every request counts as on; the finality of the closed state of receiving streams, which a late answer undoes.
- Outgoing streams: dialing, the result channel, and what the hub does with a closed stream.
- Parser: the tokenizer itself; a token is given with the number of bytes it takes.
- Capabilities: the hash, disco requests and their timers, and the validators of identities and features, which only count repetitions.
- Paging, archives and forms: request and result elements, metadata, storage errors; element names in forms are a fixed list of tags and one for any other; bytes and characters are the same.
- Stream management: the acknowledgement queue and its timers; only its identifiers are modelled.
- Sockets, TLS, compression, timers, metrics, configuration, PostgreSQL and cached repositories, and the modules whose handlers have a single branch.
- Capabilities.VerTextIsCanonical: for distinct field names and FORM_TYPE values; that ties are ambiguous is stated exactly for identities, not for fields and forms.
- ArchiveFilters.TimesAnsweredExactly: for requests whose anchors pass their guard; for the others a time bound may hide what a lost anchor leaves, and no guard is stated.
- Scram.Login: what happens when somebody else bears the escaped name of the user is not stated.
