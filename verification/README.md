# GPS HAL kernels: a Dafny verification

This project models the stateful kernels of the GPS hardware abstraction layer and proves what
they promise. `dafny verify dfyconfig.toml` checks all of it.

| files | kernel |
|---|---|
| `HeapTree.dfy`, `LocHeap.dfy` | the rank-ordered heap `LocHeap`: pointer nodes that change in place, proved to show the tree that the value-level operations give; order, conservation, search by address, height |
| `AgpsMachine.dfy`, `AgpsNetwork.dfy`, `AgpsManager.dfy`, `AgpsEvents.dfy` | the AGPS state machine, its native handler and the queue of replies between them; safety over all runs, draining, what each client is told, and what each event means for every subscriber and for the framework |
| `TripAdapter.dfy`, `TripRuns.dfy`, `TripTargets.dfy`, `TripIntervals.dfy` | the trip multiplexer, driven by an odometer; the per-trip counters are exactly what each trip has covered, modulo 2^32; when the modem's one target is in time for every trip, and its one interval often enough |
| `SetMap.dfy`, `OsObserver.dfy` | `LocUnorderedSetMap` and the observer that keeps two of them inverse, mirrors a framework subscription and fans out notifications |
| `IpcFraming.dfy`, `LocIpc.dfy` | framing of long and short messages over datagrams, the decimal length included |
| `RealtimeEstimator.dfy` | the elapsed-realtime estimator, proved against the history of fixes |
| `NetworkTable.dfy` | the table of network handles that `collate` edits in place, and the report cache |
| `LocAdapters.dfy` | the gap-free adapter array of `LocApiBase`, and its broadcasts |
| `Wrappers.dfy` | a value that may be missing |

Where the source changes state, a class changes the same fields with the same loops, and its
methods are proved equal to functions on values; the lemmas about whole runs are about those
functions. A run is a sequence of calls and outside happenings in any order.

## Where code and comments disagree

The model follows the code in each case.

- `gps/utils/LocHeap.cpp:36` says a node's size leaves the node out; the code and `checkNodes`
  count it.
- `gps/utils/LocHeap.h:86-88` reads as if `remove` looked for an object of equal rank; the code
  compares addresses, and rank only prunes the search.
- `gps/utils/LocUnorderedSetMap.h:180-182` says `update` returns the values that the map loses; the
  code returns the values that old and new have in common. `updateSubscription` relies on the
  comment, so an update by a client that already has items leaves the observer's two maps
  not inverse: `UpdateExactly` says what they are then, `UpdateKeepsInverseIff` when it is harmless.
- A batch restart caused by a joining trip re-bases the other trips from what they last reported, so
  they lose what was driven since: `JoinCostsIff` says when, `OnTime` what this means for whole runs,
  and `JoiningDelays` is a run in which it happens.
- The modem speaks up at one target distance, which the restarts are to keep within what each trip has left.
  Stopping a trip can put it beyond: a restart for the interval alone sets off the whole old target anew,
  and a restart for the distance takes the least of what remained when last counted. So can a joining trip whose
  query fails. `StopKeepsIff` and `JoinKeepsIff` say when, `StoppingDelays` and `BlindJoinDelays` give runs;
  first trips, other joins and reports always keep the target in time.
- In the running minimum of the intervals zero stands for "none yet", so a trip with an interval of zero is overlooked unless
  it comes last: `OftenRunIff` says when that matters.
- A pending machine takes the next open or failed reply for the answer to its own request, even if the reply is stale:
  `AgreesStepIff` and `AgreesRunIff` say when machine and framework come apart, `StaleReplyStrands` is a run after
  which the framework holds a connection that nobody will release.
- A client that asks again for a handle that is already connected is told of the opening twice:
  `ToldStep` and `ToldRun` show that nothing else breaks what clients are told.
- The table of networks is not always that of the connected ones: the first network event goes into the cache without
  `collate`, so a first disconnection lists its network; a network of a type outside the mask never leaves; one that
  comes back under another type, or finds the table full, is not entered. `ListedIsOnline` says exactly which runs are right.
- A header that the kernel accepts only in part is still reported as a successful send:
  `SuccessArrivesIff`.

## Model

| member | source | states |
|---|---|---|
| HeapTree.CheckNodesMeaning | gps/utils/LocHeap.cpp:197-222 | passing the self-check means: the root's size is the number of stored objects, and nothing stored outranks the root |
| HeapTree.FindsIffStored | gps/utils/LocHeap.cpp:168-195 | the pruned search succeeds if and only if that very object is stored |
| HeapTree.PushContract | gps/utils/LocHeap.cpp:103-126 | a push keeps the self-check and adds exactly one object to the stored multiset |
| HeapTree.PopContract | gps/utils/LocHeap.cpp:128-166 | a pop keeps the self-check and takes out exactly the root's object, which nothing stored outranks |
| HeapTree.RemoveContract | gps/utils/LocHeap.cpp:168-195 | a removal keeps the self-check and takes out that object if stored, else nothing |
| HeapTree.PushKeepsBalance | gps/utils/LocHeap.cpp:103-126 | if every node's left size minus right size is 0 or 1, a push keeps that |
| HeapTree.BalancedHeight | gps/utils/LocHeap.h:42-50 | a balanced tree of n > 0 nodes has height exactly floor(log2 n) + 1 |
| HeapTree.PushAddsLeaf | gps/utils/LocHeap.cpp:103-126 | a push grows the tree by one leaf; off the path to it nothing changes |
| HeapTree.PopCutsLeaf | gps/utils/LocHeap.cpp:128-166 | a pop unlinks one leaf; off the path to it nothing changes |
| HeapTree.RemoveCutsLeaf | gps/utils/LocHeap.cpp:168-195 | a removal that finds its object unlinks one leaf, any other leaves the tree as it was |
| HeapTree.TakingKeepsHeight | gps/utils/LocHeap.cpp:128-195 | no run of pops and removals ever raises the height |
| HeapTree.FilledHeight | gps/utils/LocHeap.cpp:103-195 | after n pushes into an empty heap the tree is balanced and 2^(h-1) <= n < 2^h; later pops and removals never exceed h |
| HeapTree.RunConserves | gps/utils/LocHeap.cpp:230-269 | over any run of push, pop and remove the self-check holds, and what was stored plus what came in is what is stored plus what was handed back |
| HeapTree.DrainSorts | gps/utils/LocHeap.cpp:247-256 | popping until empty yields every stored object once, in non-increasing rank |
| LocHeap.LocHeapNode.Push | gps/utils/LocHeap.cpp:109-126 | pushing a fresh node changes the linked nodes, in place, into the value-level push, and their set by that node |
| LocHeap.LocHeapNode.Pop | gps/utils/LocHeap.cpp:136-166 | the node unlinked carries the root's data; the link and the remaining nodes show the popped tree |
| LocHeap.LocHeapNode.Remove | gps/utils/LocHeap.cpp:172-195 | a node is unlinked if and only if the search finds the object, it carries exactly that object, and the rest shows the value-level removal |
| LocHeap.LocHeapNode.RemoveBelow | gps/utils/LocHeap.cpp:179-191 | the right subtree is searched only if the left search failed; the size drops only when a node was unlinked |
| LocHeap.LocHeapNode.CheckNodes | gps/utils/LocHeap.cpp:199-222 | the recursive check over linked nodes decides the self-check of the tree they show |
| LocHeap.LocHeap.Push | gps/utils/LocHeap.cpp:230-237 | the heap stays valid and holds one object more |
| LocHeap.LocHeap.Peek | gps/utils/LocHeap.cpp:239-245 | null from an empty heap, else the root's object, which is stored and which nothing stored outranks |
| LocHeap.LocHeap.Pop | gps/utils/LocHeap.cpp:247-256 | returns the object that peek shows, whatever ties in rank there are, and takes out that object alone |
| LocHeap.LocHeap.Remove | gps/utils/LocHeap.cpp:258-269 | returns the given object if and only if it is stored by address, else null; it alone is gone |
| AgpsMachine.WalkMeaning | gps/gnss/Agps.cpp:310-343 | the erase-while-iterating loop tells each matching subscriber once, in list order, and deletes those and no others |
| AgpsMachine.AgpsStateMachine.GetSubscriber | gps/gnss/Agps.cpp:465-478 | finds the first subscriber with the handle, or reports that there is none |
| AgpsMachine.AgpsStateMachine.AddSubscriber | gps/gnss/Agps.cpp:392-411 | a handle already listed is silently ignored, any other goes to the end |
| AgpsMachine.AgpsStateMachine.DeleteSubscriber | gps/gnss/Agps.cpp:413-430 | exactly the subscribers with that handle go |
| AgpsMachine.AgpsStateMachine.AnyActiveSubscribers | gps/gnss/Agps.cpp:432-442 | true if and only if some subscriber is active |
| AgpsMachine.AgpsStateMachine.NotifyEventToSubscriber | gps/gnss/Agps.cpp:345-380 | the one callback the event stands for, and deletion if asked for |
| AgpsMachine.AgpsStateMachine.NotifyAllSubscribers | gps/gnss/Agps.cpp:310-343 | the loop in place has the effect of telling all matching subscribers and dropping them if asked |
| AgpsMachine.AgpsStateMachine.ProcessAgpsEventSubscribe | gps/gnss/Agps.cpp:73-107 | new state, list, callbacks and commands of a subscription |
| AgpsMachine.AgpsStateMachine.ProcessAgpsEventUnsubscribe | gps/gnss/Agps.cpp:109-171 | new state, list, callbacks and commands of an unsubscription |
| AgpsMachine.AgpsStateMachine.ProcessAgpsEventGranted | gps/gnss/Agps.cpp:173-194 | only a pending machine is acquired, and then all active subscribers are told |
| AgpsMachine.AgpsStateMachine.ProcessAgpsEventReleased | gps/gnss/Agps.cpp:196-241 | new state, list, callbacks and commands when the connection is gone |
| AgpsMachine.AgpsStateMachine.ProcessAgpsEventDenied | gps/gnss/Agps.cpp:243-283 | new state, list, callbacks and commands when the connection is refused |
| AgpsMachine.AgpsStateMachine.DropAllSubscribers | gps/gnss/Agps.cpp:495-506 | empties the list without a callback and leaves the state |
| AgpsNetwork.SoundStep | gps/gnss/Agps.cpp:73-308 | one call, reply or modem restart keeps: distinct handles, RELEASED only with an empty list, an active member in PENDING and ACQUIRED unless empty, REQUEST before every RELEASE, last queued reply open or failed in PENDING and closed in RELEASING |
| AgpsNetwork.SoundRun | gps/gnss/Agps.cpp:73-308 | every run keeps all of that |
| AgpsNetwork.NobodyOnlyAfterSsr | gps/gnss/Agps.cpp:664-675 | without a modem restart the list is empty in RELEASED and in no other state |
| AgpsNetwork.DeliveryShrinks | gps/gnss/NativeAgpsHandler.cpp:105-127 | every processed reply lowers queue length plus one if RELEASING |
| AgpsNetwork.Drains | gps/gnss/NativeAgpsHandler.cpp:105-127 | without client calls the queue runs empty after that many deliveries and the machine rests in RELEASED or ACQUIRED, stale replies and modem restarts included |
| AgpsNetwork.RestingAgrees | gps/gnss/Agps.cpp:173-283 | a machine that agrees with the framework and has an empty queue is in ACQUIRED if and only if the framework holds the connection |
| AgpsNetwork.AgreesStepIff | gps/gnss/Agps.cpp:173-283 | an event keeps machine and framework in agreement if and only if it is not a pending machine taking a stale open reply, or a stale failed one before a last open one, for its answer |
| AgpsNetwork.AgreesRunIff | gps/gnss/Agps.cpp:73-283 | over any run they agree all along if and only if no stale reply is so taken |
| AgpsNetwork.RestsRight | gps/gnss/NativeAgpsHandler.cpp:105-127 | every such run from the start that ends with an empty queue rests in ACQUIRED if and only if the framework holds the connection |
| AgpsNetwork.StaleReplyStrands | gps/gnss/Agps.cpp:173-194 | a run after which the machine rests in RELEASED while the framework holds a connection, the client having been told of an opening and a close it did not ask for |
| AgpsNetwork.ToldStep | gps/gnss/Agps.cpp:310-380 | one happening keeps a client properly informed if and only if it is not that client asking again for an open connection |
| AgpsNetwork.ToldRun | gps/gnss/Agps.cpp:310-380 | over any run a client is properly informed at the end if and only if it never asked again for an open connection |
| AgpsNetwork.AskingTwiceBreaks | gps/gnss/Agps.cpp:73-107 | asking again in ACQUIRED brings a second opening notification |
| AgpsNetwork.UnbrokenMeaning | gps/gnss/Agps.cpp:345-380 | properly informed means: between two openings, an opening and a failure, or two endings of one handle lies a new request |
| AgpsNetwork.LogOnlyGrows | gps/gnss/Agps.cpp:345-380 | nothing told is taken back, and only a modem restart drops anyone |
| AgpsNetwork.LeavingIsToldOnce | gps/gnss/Agps.cpp:310-380 | whoever leaves the list other than by a modem restart is told of the end exactly once |
| AgpsNetwork.NobodyActiveWaits | gps/gnss/Agps.cpp:173-283 | once the clients are quiet and the queue has run empty, everybody still listed as active has the connection |
| AgpsNetwork.RequestWhileInactive | gps/gnss/Agps.cpp:73-107 | in any state a request for a handle listed as inactive changes only what the client is told, and leaves the subscriber inactive |
| AgpsNetwork.RequestDuringCloseIsDropped | gps/gnss/Agps.cpp:392-411 | a request for a handle whose close is outstanding changes nothing, and the client is told of the close and is no longer listed |
| AgpsNetwork.FromTheStart | gps/gnss/Agps.h:94-122 | both invariants hold from the initial state on |
| AgpsEvents.GrantTellsActive | gps/gnss/Agps.cpp:173-194 | a grant matters to a pending machine only: it is acquired, every active subscriber hears of the opening once, nobody else hears anything, list and commands stay |
| AgpsEvents.DenialFailsAll | gps/gnss/Agps.cpp:243-283 | a denial of a pending request: everybody hears that the opening failed, once, and goes; no command |
| AgpsEvents.LossClosesAll | gps/gnss/Agps.cpp:196-241 | a lost connection: everybody hears of the close, once, and goes; no command |
| AgpsEvents.ReleaseOver | gps/gnss/Agps.cpp:211-241 | a release that is over: exactly the inactive ones hear of the close and go, the others stay as they are, and a request goes out if and only if there are others |
| AgpsEvents.RequestEnters | gps/gnss/Agps.cpp:73-107 | a new subscriber is listed as active behind the others, a released machine sends a request, an acquired one tells of the opening |
| AgpsEvents.NothingToDo | gps/gnss/Agps.cpp:392-411 | a request by a listed client, or a release by an unlisted one, changes neither list nor state nor commands |
| AgpsEvents.LeavingAffectsOne | gps/gnss/Agps.cpp:109-171 | the one who leaves turns inactive and hears nothing, or hears of the close and goes, as it waits for the close or not; every other subscriber stays listed as it was |
| AgpsEvents.LeavingDecides | gps/gnss/Agps.cpp:109-171 | with a connection, or waiting for one, RELEASE is sent if and only if no other listed subscriber is active, otherwise state and commands stay; a machine that is releasing sends nothing |
| AgpsEvents.RestartDropsAll | gps/gnss/Agps.cpp:495-506 | a modem restart empties the list without a callback and moves nothing else |
| AgpsManager.LastNetworkDecides | gps/gnss/NativeAgpsHandler.cpp:47-69 | the last network item of a report decides, whatever comes before it and whatever the state was |
| AgpsManager.NativeAgpsHandler.Notify | gps/gnss/NativeAgpsHandler.cpp:47-69 | the last network item of a report decides by the mobile bit of its mask; other items, and reports without one, change nothing |
| AgpsManager.NativeAgpsHandler.ProcessAtlRequestRelease | gps/gnss/NativeAgpsHandler.cpp:105-127 | one reply for each command: open or failed by connectivity for a request, closed for a release |
| AgpsManager.AgpsManager.RequestATL | gps/gnss/Agps.cpp:563-597 | is one step of the network, commands answered in order |
| AgpsManager.AgpsManager.ReleaseATL | gps/gnss/Agps.cpp:599-625 | is one step of the network; an unknown handle changes nothing |
| AgpsManager.AgpsManager.ProcessReply | gps/gnss/Agps.cpp:627-662 | is one step of the network that consumes the oldest reply |
| AgpsManager.AgpsManager.HandleModemSSR | gps/gnss/Agps.cpp:664-675 | is one step of the network that only drops subscribers |
| TripAdapter.BatchingAdapter.StartTripBatchingMultiplex | gps/batching/BatchingAdapter.cpp:834-943 | whole new state of the first or a joining trip, and whether the batch restarts |
| TripAdapter.BatchingAdapter.StopTripBatchingMultiplex | gps/batching/BatchingAdapter.cpp:946-1006 | whole new state of stopping a listed trip |
| TripAdapter.BatchingAdapter.RestartTripBatching | gps/batching/BatchingAdapter.cpp:1010-1114 | whole new state of the re-planning, with its two minima and the dropped flags; nothing changes if the modem refuses the restart |
| TripAdapter.BatchingAdapter.UpdateSessions | gps/batching/BatchingAdapter.cpp:754-776 | the erase-while-iterating loop takes out exactly the completed trips, in order, brings the others up to date and sets the dropped flags |
| TripAdapter.BatchingAdapter.ReportCompletedTrips | gps/batching/BatchingAdapter.cpp:746-785 | whole new state, the list of completed trips, and whether the batch restarts |
| TripRuns.DistanceIsAccount | gps/batching/BatchingAdapter.cpp:746-785 | whatever has wrapped round, a trip's computed distance is what it has covered less what it lost, modulo 2^32 |
| TripRuns.HonestStep | gps/batching/BatchingAdapter.cpp:746-1114 | every operation, and driving, keeps the counters of every trip equal to its account |
| TripRuns.ReportedExactly | gps/batching/BatchingAdapter.cpp:746-785 | after any run a report lists a trip if and only if its distance is covered, less what joining trips took away, modulo 2^32 |
| TripRuns.NeverEarly | gps/batching/BatchingAdapter.cpp:746-785 | after any run no trip is listed before the odometer has advanced by its distance since it started |
| TripRuns.NoUnderflow | gps/batching/BatchingAdapter.cpp:746-785 | while the batch's distance fits its counter, a trip's share subtracts from it without wrapping |
| TripRuns.DistanceStep | gps/batching/BatchingAdapter.cpp:746-1114 | the distance computed for a listed trip grows by what is driven and no operation changes it, except that a join that restarts the batch sets it back to what was last counted |
| TripRuns.JoinCostsIff | gps/batching/BatchingAdapter.cpp:871-941 | a join leaves the distance of another trip as it is if and only if the new trip neither wants fixes more often nor ends before the batch, or the other had just been counted |
| TripRuns.OnTime | gps/batching/BatchingAdapter.cpp:746-1114 | after any run the distance a report goes by is the distance driven since the trip's start if and only if no such join has set the trip back since |
| TripRuns.JoiningDelays | gps/batching/BatchingAdapter.cpp:871-941 | a run in which a joining trip makes another one late |
| TripTargets.CompleteAtTheTarget | gps/batching/BatchingAdapter.cpp:762-764 | with the target in time, a complete trip has covered exactly its distance, and the batch is just ending |
| TripTargets.DriveKeepsIff | gps/batching/BatchingAdapter.cpp:758-760 | driving keeps the target in time exactly up to the target |
| TripTargets.JoinKeepsIff | gps/batching/BatchingAdapter.cpp:871-941 | a join keeps the target in time if and only if its query succeeds, or it needs no restart, or the smaller of its distance and the old target is within what remained of every trip when last counted |
| TripTargets.RestartKeepsIff | gps/batching/BatchingAdapter.cpp:1033-1111 | re-planning keeps the target in time if and only if it needs or gets no restart, or restarts for the interval alone with every trip having the whole old target left, or restarts for the distance with a trip that ends first just counted |
| TripTargets.LeastIsLeftIff | gps/batching/BatchingAdapter.cpp:1033-1072 | the least of what remained when last counted is within what every trip has left if and only if a trip that ends first has just been counted |
| TripTargets.StopKeepsIff | gps/batching/BatchingAdapter.cpp:972-1006 | stopping a listed trip keeps the target in time for the others if and only if the guard of the re-planning without it holds |
| TripTargets.ReportKeeps | gps/batching/BatchingAdapter.cpp:746-785 | a report always leaves a target that is in time |
| TripTargets.TimelyStepIff | gps/batching/BatchingAdapter.cpp:746-1114 | every event keeps the target in time if and only if it observes its condition |
| TripTargets.TimelyFromTheStart | gps/batching/BatchingAdapter.cpp:746-1114 | from the start the target is in time throughout a run if and only if every event observes its condition |
| TripTargets.StoppingDelays | gps/batching/BatchingAdapter.cpp:1082-1111 | two runs in which a stop puts the target beyond a trip, once for the interval alone and once by counters not up to date |
| TripTargets.BlindJoinDelays | gps/batching/BatchingAdapter.cpp:896-902 | a run in which a join with a failed query puts the target beyond a trip |
| TripIntervals.StartTerms | gps/batching/BatchingAdapter.cpp:834-943 | a trip that starts is listed on its own distance and interval, in place of one of the same id; the others keep theirs; a failed start or query lists nothing |
| TripIntervals.StopTerms | gps/batching/BatchingAdapter.cpp:972-1006 | stopping takes out that trip and no other |
| TripIntervals.ReportTerms | gps/batching/BatchingAdapter.cpp:746-785 | a report lists and takes out exactly the trips that have their distance |
| TripIntervals.StopNotes | gps/batching/BatchingAdapter.cpp:977-985 | the dropped flags: a stopped trip sets them if it had the batch's interval or distance; they are never cleared |
| TripIntervals.ReportNotes | gps/batching/BatchingAdapter.cpp:762-774 | the same for any completed trip |
| TripIntervals.RestartPlans | gps/batching/BatchingAdapter.cpp:1033-1111 | for the least interval and the least remaining distance of the trips: a shorter interval and a nearer target are always taken, longer and farther ones only after a drop or, for the target, once it is reached; both only if the restart is granted |
| TripIntervals.FirstPlans | gps/batching/BatchingAdapter.cpp:834-870 | the first trip sets the batch up on its own terms, the last one to go leaves none |
| TripIntervals.JoinPlans | gps/batching/BatchingAdapter.cpp:871-941 | a joining trip makes the batch run at the shorter interval and end at the nearer of the two targets |
| TripIntervals.PlannedOftenIff | gps/batching/BatchingAdapter.cpp:1033-1111 | re-planning keeps the batch often enough for every trip if and only if it does not overlook an interval of zero |
| TripIntervals.OftenRunIff | gps/batching/BatchingAdapter.cpp:746-1114 | over any run, refusals and failed queries included, the batch takes fixes at least as often as every listed trip asks, all along, if and only if no plan overlooks an interval of zero |
| TripIntervals.OftenFromTheStart | gps/batching/BatchingAdapter.cpp:746-1114 | trips that ask for some time between fixes always get them at least that often |
| TripIntervals.StartLeastIff | gps/batching/BatchingAdapter.cpp:834-943 | a start keeps the batch at the least interval asked for if and only if the new trip has it or a shorter one or replaces no last holder of it, or, with a failed query, wants no shorter one |
| TripIntervals.StopLeastIff | gps/batching/BatchingAdapter.cpp:972-1006 | a stop keeps it there if and only if the restart is granted, or somebody left holds it |
| TripIntervals.ReportLeastIff | gps/batching/BatchingAdapter.cpp:746-785 | the same for a report |
| TripIntervals.LeastRunIff | gps/batching/BatchingAdapter.cpp:746-1114 | over any run of trips with positive intervals the batch runs at the least interval of the listed trips all along if and only if every event keeps it there |
| SetMap.LocUnorderedSetMap.TrimOrRemoveEntry | gps/utils/LocUnorderedSetMap.h:83-94 | one entry loses the values and goes if nothing is left |
| SetMap.LocUnorderedSetMap.TrimOrRemove | gps/utils/LocUnorderedSetMap.h:135-148 | the new map, the entries that went and the values that went, for any set of keys |
| SetMap.LocUnorderedSetMap.Add | gps/utils/LocUnorderedSetMap.h:150-175 | the new map and the keys that are new; nothing for no values |
| SetMap.LocUnorderedSetMap.Update | gps/utils/LocUnorderedSetMap.h:180-195 | the entry holds the new values; returned is the overlap with the old ones, passed on are the others |
| SetMap.LocUnorderedSetMap.RemoveAndReturnInterset | gps/utils/LocUnorderedSetMap.h:60-77 | the intersection, and the second set without it |
| OsObserver.SubscribeExactly | gps/core/SystemStatusOsObserver.cpp:105-126 | the client gains the items, is listed under them, others stay as they were, and the framework gains exactly the items that were not listed, unless their data is only requested |
| OsObserver.UnsubscribeExactly | gps/core/SystemStatusOsObserver.cpp:223-242 | the client loses exactly those items and is no longer listed under them, others stay as they were, and the framework loses exactly what nobody is listed under any more |
| OsObserver.UnsubscribeAllExactly | gps/core/SystemStatusOsObserver.cpp:262-284 | the same for all items of the client |
| OsObserver.UpdateExactly | gps/core/SystemStatusOsObserver.cpp:151-200 | after an update the client's entry is the new items, and it is listed under those it gained and those it gave up |
| OsObserver.UpdateKeepsInverseIff | gps/core/SystemStatusOsObserver.cpp:151-200 | an update keeps the maps inverse if and only if the client had no items |
| OsObserver.UpdateLosesClient | gps/core/SystemStatusOsObserver.cpp:151-200 | a concrete client that widens its subscription and is no longer listed under an item it keeps |
| OsObserver.InverseStepIff | gps/core/SystemStatusOsObserver.cpp:105-284 | one request keeps the maps inverse if and only if it is not an update by a client with items |
| OsObserver.InverseRun | gps/core/SystemStatusOsObserver.cpp:105-284 | under any interleaving the maps are inverse all along if and only if there is no such update |
| OsObserver.TidyStep | gps/core/SystemStatusOsObserver.cpp:105-284 | no request leaves an empty entry in either map |
| OsObserver.FrameworkStep | gps/core/SystemStatusOsObserver.cpp:69-284 | the framework is never subscribed to an unlisted item; setting the object makes it equal to the listed items, and it stays equal if and only if no new item comes by requestData |
| OsObserver.FrameworkRun | gps/core/SystemStatusOsObserver.cpp:69-284 | over any run the framework is never subscribed to an unlisted item; once it has just the listed ones it has just those all along if and only if no unlisted item comes by requestData |
| OsObserver.FromTheStart | gps/core/SystemStatusOsObserver.cpp:69-284 | all three invariants for runs from an empty observer |
| OsObserver.CacheHasLast | gps/core/SystemStatusOsObserver.cpp:558-589 | after a batch the cache has, for an item that is cached or can be, the value of the last recorded item of its id, or what it had before |
| OsObserver.ChangedIff | gps/core/SystemStatusOsObserver.cpp:558-589 | an item counts as changed if and only if some recorded item of its id differs from the value before it |
| OsObserver.SendsWhatIsCached | gps/core/SystemStatusOsObserver.cpp:530-556 | one call with every cached item among those asked for and its value, none if there are none |
| OsObserver.NotifyReachesIff | gps/core/SystemStatusOsObserver.cpp:311-344 | whatever the maps, a client is called exactly when it wants a changed item if and only if it wants none or is listed under one of the changed items; a call carries exactly what the client wants, with the values of the last recorded items |
| OsObserver.UpdateMissesNotify | gps/core/SystemStatusOsObserver.cpp:151-200 | the client that widened its subscription misses a change of the item it kept |
| OsObserver.NotifyReachesExactly | gps/core/SystemStatusOsObserver.cpp:311-344 | with inverse maps a batch calls each client that wants a changed item once, with exactly those items and their cached values, and nobody else |
| OsObserver.SystemStatusOsObserver.SetSubscriptionObject | gps/core/SystemStatusOsObserver.cpp:69-80 | a new subscription object is subscribed to all listed items and asked for their data |
| OsObserver.SystemStatusOsObserver.HandleSubscribe | gps/core/SystemStatusOsObserver.cpp:105-126 | both maps, the framework's set, the data asked for at once, and the cached items sent back |
| OsObserver.SystemStatusOsObserver.HandleUpdateSubscription | gps/core/SystemStatusOsObserver.cpp:151-200 | both maps, the framework's set, and the cached values of the gained items sent |
| OsObserver.SystemStatusOsObserver.HandleUnsubscribe | gps/core/SystemStatusOsObserver.cpp:223-242 | both maps and the framework's set; nobody is called |
| OsObserver.SystemStatusOsObserver.HandleUnsubscribeAll | gps/core/SystemStatusOsObserver.cpp:262-284 | both maps and the framework's set; nobody is called |
| OsObserver.SystemStatusOsObserver.HandleNotify | gps/core/SystemStatusOsObserver.cpp:311-344 | the cache after the batch, and one round of calls: each listed client that has a changed item cached, once, with just those |
| OsObserver.SystemStatusOsObserver.SendCachedDataItems | gps/core/SystemStatusOsObserver.cpp:530-556 | one call with exactly the cached ones among the items, none if there are none |
| OsObserver.SystemStatusOsObserver.UpdateCache | gps/core/SystemStatusOsObserver.cpp:558-589 | a recorded item replaces its entry, or makes one if it can, and counts as updated if and only if the entry is new or its value differs |
| IpcFraming.ShortCarriedIff | gps/utils/LocIpc.cpp:102-107 | a message that fits a datagram is carried if and only if it does not start with the header text, is not the abort text, and does not start with that and a zero |
| IpcFraming.CutShortIsDropped | gps/utils/LocIpc.cpp:110-122 | a long message of which the last pieces are missing is dropped whole and used up |
| IpcFraming.DecimalRoundTrip | gps/utils/LocIpc.cpp:84-116 | a printed length reads back as itself |
| IpcFraming.GatherAll | gps/utils/LocIpc.cpp:110-122 | pieces of any sizes up to the datagram size fit the remaining buffer one after the other and fill it |
| IpcFraming.FramedArrives | gps/utils/LocIpc.cpp:97-127 | a carried message arrives whole and only its own datagrams are consumed |
| IpcFraming.ListArrives | gps/utils/LocIpc.cpp:79-127 | any list of carried messages, each cut into pieces in any way, arrives as the same list and empties the channel |
| IpcFraming.ArrivesIff | gps/utils/LocIpc.cpp:79-127 | a framed message arrives as itself with nothing left over if and only if it is short and neither header-like nor the abort text, or long with a header that fits |
| IpcFraming.CutHeaderFails | gps/utils/LocIpc.cpp:87-89 | a header cut short by sender or receiver never delivers the message |
| IpcFraming.DefaultHeaderFits | gps/utils/LocIpc.h:206 | with the default datagram size every header of a 32-bit length fits |
| LocIpc.Sock.Send | gps/utils/LocIpc.cpp:63-68 | an empty buffer is refused; otherwise the report is header plus message length if and only if all of the message is on the channel |
| LocIpc.Sock.SendTo | gps/utils/LocIpc.cpp:79-96 | the datagrams put on the channel, whatever the kernel accepts at each call, and the value returned |
| LocIpc.Sock.SendPieces | gps/utils/LocIpc.cpp:88-93 | under partial sends and failures the pieces are non-empty, at most the datagram size, and concatenate to the part sent; success if and only if that is all |
| LocIpc.Sock.SuccessArrivesIff | gps/utils/LocIpc.cpp:79-127 | a successful send delivers the message if and only if framing carries it and the header went out whole |
| LocIpc.Sock.RecvFrom | gps/utils/LocIpc.cpp:97-127 | one receive consumes and delivers what the value-level receiver says |
| LocIpc.Exchange | gps/utils/LocIpc.cpp:63-127 | if every send reports success and every header goes out whole, however the pieces are cut, sending any list of carried messages and receiving as often gives the list back in order and empties the channel; a kernel that accepts what it is given provides that |
| RealtimeEstimator.ElapsedRealtimeEstimator.GetElapsedRealtimeEstimateNanos | gps/core/LocApiBase.cpp:938-988 | the in-place arithmetic answers what the history of fixes says; untrusted fixes and clock failures change no field |
| RealtimeEstimator.ElapsedRealtimeEstimator.Reset | gps/core/LocApiBase.cpp:990-996 | the estimator starts settling anew |
| RealtimeEstimator.WallClockIrrelevant | gps/core/LocApiBase.cpp:938-988 | two histories that differ in wall-clock readings alone give equal answers at every step |
| RealtimeEstimator.UntrustedIsDefault | gps/core/LocApiBase.cpp:938-988 | a fix that is not trusted is answered with boot time minus initial travel time, one without a clock with -1, and neither is learnt from |
| RealtimeEstimator.FreeFixesNeverBreak | gps/core/LocApiBase.cpp:961-964 | fixes without an expected distance never count as jumps |
| RealtimeEstimator.OffBeatBreaks | gps/core/LocApiBase.cpp:961-964 | a fix off its beat is answered with the default and settling starts again with it |
| RealtimeEstimator.ConstantOnceCalibrated | gps/core/LocApiBase.cpp:957-988 | after the calibrating fix every trusted fix until a jump or reset is answered with its data time plus calibration boot time minus calibration data time minus initial travel time |
| RealtimeEstimator.DefaultUntilCalibrated | gps/core/LocApiBase.cpp:957-988 | while at most five fixes have been learnt from, since the start or the last jump or reset, the next one is answered with boot time minus initial travel time, whatever untrusted or failing ones came between |
| RealtimeEstimator.BreakingForgets | gps/core/LocApiBase.cpp:957-988 | a jump or a reset leaves at most the jumping fix to learn from |
| RealtimeEstimator.AnswersSpacedByTbf | gps/core/LocApiBase.cpp:957-988 | two calibrated answers in a row are exactly the time between fixes apart |
| NetworkTable.SystemStatusNetworkInfo.constructor | gps/core/data-items/DataItemConcreteTypesBase.h:285-300 | a new event's table holds its own pair in the first slot, connected or not |
| NetworkTable.SystemStatusNetworkInfo.Equals | gps/core/SystemStatus.h:507-513 | equal if and only if connectedness, all slots and the access point name agree |
| NetworkTable.SystemStatusNetworkInfo.Collate | gps/core/SystemStatus.h:514-586 | the table copied and edited in place is the collated table; the access point name is inherited for non-mobile types |
| NetworkTable.SystemStatusNetworkInfo.Connect | gps/core/SystemStatus.h:527-539 | the pair goes into the first free slot unless the handle is unknown, already listed, or there is no slot |
| NetworkTable.SystemStatusNetworkInfo.Disconnect | gps/core/SystemStatus.h:540-571 | the last valid pair moves into the slot of the matching pair, if there is one |
| NetworkTable.CollatedPairs | gps/core/SystemStatus.h:514-586 | a gap-free table with distinct handles stays one; a connection adds its pair if the handle is known and new and there is room, a disconnection removes exactly its pair |
| NetworkTable.SystemStatus.SetItemInReport | gps/core/SystemStatus.cpp:1354-1372 | news is returned if and only if the event differs from the last cached report in connectedness, table or access point name; then it is added and all earlier reports stay, but for the oldest of six; otherwise only the last time stamp moves; the cache holds the most recent five of all reports |
| NetworkTable.NextReport | gps/core/SystemStatus.h:514-586 | the report an event makes has its connectedness and time, the pairs as it changes them, and the cached access point name for types other than mobile |
| NetworkTable.CachedIsRecent | gps/core/SystemStatus.cpp:1354-1372 | keeping the cache this way keeps in it the most recent of all reports |
| NetworkTable.TableRun | gps/core/SystemStatus.cpp:1354-1372 | in every run the last report's table is gap-free with distinct handles and holds exactly the pairs the events add up to |
| NetworkTable.ListedIsOnline | gps/core/SystemStatus.cpp:1354-1372 | over any run the table lists exactly the connected networks after every event if and only if the first event is a connection with a known handle or a disconnection without one, every later connection repeats a listed pair or has a known unlisted handle and a free slot, and every disconnection of a listed pair has a type with a mask bit |
| NetworkTable.UnmaskedStaysListed | gps/core/SystemStatus.h:540 | a network of a type without a mask bit that connects and disconnects stays listed |
| NetworkTable.RetypedIsMissed | gps/core/SystemStatus.h:527-539 | a network that comes back under another type is connected and not listed |
| LocAdapters.LocApiBase.AddAdapter | gps/core/LocApiBase.cpp:231-240 | a new adapter goes behind the others and the API is opened anew; null, duplicates and a full table change nothing |
| LocAdapters.LocApiBase.RemoveAdapter | gps/core/LocApiBase.cpp:242-276 | the array stays gap-free, the last adapter fills the gap, and a close message is posted if and only if the last one left |
| LocAdapters.LocApiBase.ToAllAdapters | gps/core/LocApiBase.h:63-66 | a broadcast calls exactly the adapters of the array, each once and in order |
| LocAdapters.LocApiBase.ToFirstHandlingAdapter | gps/core/LocApiBase.h:68-69 | the calls stop with the first adapter that handles, or reach all |
| LocAdapters.LocApiBase.GetEvtMask | gps/core/LocApiBase.cpp:168-175 | the mask is the union of all adapters' masks minus the excluded bits |
| LocAdapters.LeftSet | gps/core/LocApiBase.cpp:242-276 | leaving takes out that adapter, no other, and one slot |
| LocAdapters.JoinedSet | gps/core/LocApiBase.cpp:231-240 | joining takes in that adapter if there is room, and no other |
| LocAdapters.RunHoldsRegistered | gps/core/LocApiBase.cpp:231-276 | after any run of joining and leaving the array holds exactly the registered adapters, each once |

## Left out

- The heap: freeing nodes and `detachData`; `ranks` is a difference of integer ranks, which is any total
  preorder on finitely many objects.
- AGPS: access point names and bearers, and types other than `LOC_AGPS_TYPE_WWAN_ANY`, which the native handler
  does not answer. Subscribers are values, and the current subscriber is a position in the list. The manager always
  asks to wait for the close; the runs allow both.
- AgpsManager.AgpsManager.RequestATL: there is one state machine, so the mapping of types to machines and the failure
  callback for a type without one are left out.
- AgpsManager.AgpsManager.ReleaseATL: searches the one state machine there is.
- TripAdapter.BatchingAdapter.StartTripBatchingMultiplex: the batch restart for a joining trip succeeds; the code re-bases
  the counters before it knows. A restart after a stop or a report may be refused.
- TripAdapter.BatchingAdapter.StopTripBatchingMultiplex: does nothing for a trip that is not listed. The callers at
  `gps/batching/BatchingAdapter.cpp:528-531` and `:569-570` test for that; the one at line 180 does not, and the code then
  reads past the end of its map, having stopped the modem's batch if one trip was listed.
- Trips: query, restart and response are one step; a report happens at the modem's present reading. `restartSessions`
  after a modem restart and the BATCH_FULL event mask are not modelled. In the report loop the record is used after
  being erased; the model uses the values read before.
- TripRuns.NoUnderflow: asks that the batch's own distance fit 32 bits; beyond that the reading itself has
  wrapped, and the distance is right only modulo 2^32, as `DistanceIsAccount` says.
- TripRuns.OnTime: asks that the distance driven fit 32 bits, since a trip that has covered 2^32 looks as if it
  had covered nothing; `ReportedExactly` has no such condition.
- TripIntervals.LeastRunIff: asks that trips have positive intervals; what zero does is in `OftenRunIff`.
- TripTargets.TimelyFromTheStart: asks that no drive wrap the batch's 32-bit reading.
- The observer: null arguments, the `turnOn`/`turnOff` pass-through and the message queue in front of the
  handlers; sets are visited in no particular order. `LocUnorderedSetMap` erases entries while holding iterators
  to them; the model uses the values read before.
- LocIpc: addresses and socket kinds; a receive on an empty channel fails instead of blocking; blanks and signs
  that `sscanf` would accept, and lengths beyond `size_t`; several senders on one channel.
- The estimator: overflow of 64-bit nanoseconds, sampling the clocks, and `getElapsedRealtimeQtimer`.
- OsObserver.SystemStatusOsObserver.UpdateCache: whether SystemStatus records an item and whether an entry can be made are
  given with the item, and an item's `copy` compares values.
- NetworkTable.SystemStatusNetworkInfo.Collate: leaves out `mAllTypes`, which keeps an event's own mask while another handle
  of the type remains, and the copy back into the source object. The test that the event's mask is not zero is
  `KnownType` here: a new event's mask is made from its type, and it is zero just for types without a bit.
- LocAdapters: masks are sets of bits; adapters' other callbacks are not modelled.
- NMEA parsing, LocationAPI, geofences, configuration, logging and threads.
