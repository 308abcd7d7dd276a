# Crazy Ivan, modelled and verified

A Dafny model of the parts of Crazy Ivan that hold state other parts rely on, with proofs of what that
state keeps. Crazy Ivan is an HTTP service that keeps scenes, the devices registered to them and the
coordinate transforms between them in a Neo4j graph. `dafny verify dfyconfig.toml` checks everything.

## Parts

**The device cache.** `EntryProtocol` is one double-buffered cache entry with any number of threads, one step
per atomic operation. `EntryProofs` holds what every run keeps, `EntryRaces` a run that tears a read,
`EntryHistory` what the history variables say of the steps of a run. `CacheProtocol`, `CacheProofs`,
`CacheLinear` and `CacheTheorems` put many entries under the scene lock, with the map and the key list, and
compare them with the plain map of `PlainMap`; `CacheWindows` is about the reads that are not aligned but
calm, `CacheMemory` about which entries are alive, `CacheHistory` about which calls were made and returned.
`DeviceCache` holds the cache objects and the loader as one thread sees them. The timing condition is carried
openly: a read is *aligned* when the id was flipped an even number of times, zero included, between the
reader's id load and its counter increment. Without it any read can be made to return a vector that is not
published (`EntryRaces.MisalignedCanTear`).

**Transforms.** `Matrices` and `Rotations` are exact 4x4 matrices and the proper rotations among them, `Poses`
the values behind a transform, `Transforms` the object itself, `Paths` the folding of a path of stored edges,
`Motions` what they all do to vectors. An angle is the pair of its cosine and sine. The library's extraction of
Euler angles is a parameter of which only this is known: turning by the angles moves every vector as the matrix does.

**Registration.** `SceneGraph` is the stored graph and the queries, `Registration` the processor of register,
deregister and align messages, `GraphProofs` to `RegistrationTheorems` the invariants of every run and what
each message does. `SceneLinks`, `Telescoping`, `LinkPaths`, `UntaggedLinks` and `CodedRuns` are about the links
between scenes and the paths along them, `RegisteredAddresses` about what the cache loader reads of
registrations. The code decides by a "key" property whether a link exists, but never writes one
(src/proc/query/scene_query_helper.cpp:128 and :167-169), so as coded no link is ever corrected and every
alignment adds links. The model has a switch, `tagged`: false is the code, true the stated purpose, in which
the property is written. What holds in both modes is stated for both; what fails as coded has its exact
condition, for one alignment (`UntaggedLinks`) and for a whole run (`CodedRuns`), and a run that shows it.

**Messages.** `Json` is JSON as writer events and as a tree, `SceneLists` the scene list with its printer and
parser, `SceneListProofs` and `SceneListTheorems` what comes back, `JsonSceneList` the object with its loops,
`WireFormat` the names and defaults of the format and what is made of members that are never printed.
`MessageTransforms` is the transform of a message as the parser builds it, matrix and all.

**Failover.** `FailoverProtocol` and `FailoverProofs` are any number of threads running queries through one
database manager, `FailoverCalls` how calls end, `DatabaseManager` the object used by one thread.

**Queries.** `Query` has the tokens, the syntax tree of a keyless retrieval, renderer and parser,
`QueryBuilder` the builder of queries and parameters, `QueryMeaning` which placeholders are bound,
`QueryEvaluation` what a retrieval selects, `QueryEffects` what a create and an update do to one node,
`StoredScenes` the create, update and delete messages against all stored scenes, `Retrieving` the retrieve
message and its pages.

## Behaviour worth knowing

- The comment above process_deregistration_message says that a scene goes with its last device
  (src/proc/processor/message_processor.cpp:284-286); the code never removes a scene, and neither does the model.
- A registration with an empty scene key is answered with success, but the device is registered nowhere
  (`RegistrationTheorems.EmptySceneKeyRegistersNothing`).
- Visibility is part of a keyless retrieval only when a name or a region is given
  (`QueryEvaluation.VisibilityNeedsNameOrRegion`).
- An update or delete of a key that no scene has is answered with success (`StoredScenes.ProcessUpdate`,
  `StoredScenes.ProcessDelete`); a create or update with a latitude or longitude below -9999 is refused.
- As coded, one alignment that moves a device at a linked scene leaves a wrong link for good: no later
  alignment, not even one back, makes all links right again (`CodedRuns.CodedRunTellsExactly`).
- A page larger than ten shows ten scenes (`Retrieving.PagesTile`).

## Model

| member | source | states |
|---|---|---|
| EntryProofs.InvStep | src/cache/include/device_cache.h:29-63 | every atomic step, by any thread at any time, keeps the invariant of the entry, and nothing is assumed about timing |
| EntryProofs.NoOverlap | src/cache/include/device_cache.h:32-39 | in every run, a reader that copies the buffer a writer moves into loaded the id an odd number of flips before its increment, with the writer past its check |
| EntryProofs.ReadResult | src/cache/include/device_cache.h:29-45 | an aligned read returns, whole, the vector current at its increment; a misaligned one without a writer past its check returns, whole, the one before |
| EntryProofs.CountersCountReaders | src/cache/include/device_cache.h:33-39 | each counter is the number of readers inside that copy, in every run |
| EntryProofs.WaitShrinks | src/cache/include/device_cache.h:55-61 | while a writer polls, the remaining steps of the readers aimed at its buffer never grow and drop with each of their steps |
| EntryProofs.WaitEnds | src/cache/include/device_cache.h:56-59 | when none of those steps is left the writer's next poll passes, and while one is left some such reader can take it |
| EntryProofs.WaitIsBounded | src/cache/include/device_cache.h:55-61 | over any run during which the writer polls, the steps the readers aimed at its buffer take and those they still have left add up to what they had left at its start |
| EntryProofs.EntryHasNoDeadlock | src/cache/include/device_cache.h:49-63 | while a call on the entry is unfinished some thread can make progress on it |
| EntryHistory.HistoryIsHistory | src/cache/include/device_cache.h:29-63 | in every run the history variables behind aligned and calm are the flips before the load, the flips before the increment and the absence of a writer past its check, told from the steps alone |
| EntryHistory.MovingBufferIsEmpty | src/cache/include/device_cache.h:55-61 | in every run a buffer that a vector is being moved into is empty at that moment |
| EntryHistory.OnlyTheMutexBlocks | src/cache/include/device_cache.h:29-63 | a thread inside a call of the entry can step, whatever the others do, except that a set waits for the mutex before it begins |
| EntryHistory.GetAlone | src/cache/include/device_cache.h:29-45 | from every reachable state a get that no other step interrupts is aligned and calm and returns the current vector |
| EntryRaces.TornRead | src/cache/include/device_cache.h:32-34 | without the timing condition a read can return a vector that was never published: a run that does so |
| EntryRaces.TornFrom | src/cache/include/device_cache.h:32-39 | for every reader that has loaded an id since flipped away, every vector v and every k up to both lengths, a free writer has a run that makes the read return the first k addresses of the buffer and the rest of v |
| EntryRaces.MisalignedCanTear | src/cache/include/device_cache.h:32-34 | so from every such state some run returns a vector that is not published and, when the spare buffer is not empty, is not the one being written either: the condition of ReadResult cannot be done without |
| CacheProtocol.Do | src/cache/include/device_cache.h:85-106 | a step changes the program counter of the stepping thread only |
| CacheTheorems.Linearizable | src/cache/include/device_cache.h:75-107 | in every run the effects form a log the plain map can perform, the entries hold the map it leads to, and every finished call took effect between its beginning and its end, at an event that fits its result |
| CacheTheorems.EventsFitTheMap | src/cache/include/device_cache.h:85-109 | what a legal log means: at each event the map before it has the value a get saw, lacks the key a get missed, has a value a put replaces, and is changed as the event says |
| CacheTheorems.LockAdmits | src/cache/include/device_cache.h:98-109 | gets and sets wait for adds and removes, not for each other; adds and removes wait for all |
| CacheHistory.HistoryIsHistory | src/cache/include/device_cache.h:85-106 | in every run the records that linearizability is stated for are the calls that returned, all of them and in order, and each call keeps the arguments and the beginning it was made with |
| CacheTheorems.GetIsFresh | src/cache/include/device_cache.h:98-102 | an aligned get returns the last write before its effect, none older than any write done before the get began |
| CacheTheorems.GetsNeverGoBack | src/cache/include/device_cache.h:98-102 | a later aligned get of the same thread returns the same write or a later one |
| CacheWindows.CalmGetsLinearize | src/cache/include/device_cache.h:29-45 | in every run of the four cache calls, each get during whose increment no writer was past its check, aligned or not, returns a vector the plain map held under its key at some point between the beginning of the call and its effect |
| CacheWindows.ReturnHeld | src/cache/include/device_cache.h:32-45 | such a get returns one of the versions published between its id load and its increment, each of which the map held |
| CacheWindows.LeavesWithCopy | src/cache/include/device_cache.h:98-102 | a get returns what it copied in the entry, and is called aligned and calm for what it was there |
| CacheTheorems.NoUseAfterFree | src/cache/include/device_cache.h:90-102 | whoever is inside an entry is inside one that has not been deleted |
| CacheMemory.HeapIsTheMap | src/cache/include/device_cache.h:85-95 | after every run whose adds use new keys an entry is alive if and only if the map points at it and it is not half-way through its removal: no leak, no early free |
| CacheMemory.LeaksExactly | src/cache/include/device_cache.h:85-95 | a step leaks an entry if and only if it is an add of a key the map has |
| CacheMemory.TidyExactly | src/cache/include/device_cache.h:85-89 | the condition "adds use new keys" of a run is that no add step finds its key in the map |
| CacheTheorems.ListMatchesMap | src/cache/include/device_cache.h:85-96 | while adds use new keys, the key list names exactly the scenes of the map, each once, whenever no add or remove is half-way |
| CacheTheorems.AddKeepsListExactly | src/cache/include/device_cache.h:85-89 | an add keeps list and map in step if and only if its key is new |
| CacheTheorems.UndefinedExactly | src/cache/include/device_cache.h:90-106 | a step is undefined if and only if it is a set on a key without entry or a remove of a key not in the list |
| CacheTheorems.DefinedExactly | src/cache/include/device_cache.h:85-106 | a run whose adds use new keys does nothing undefined if and only if every set and remove uses a key that is in the map when it gets the lock |
| CacheTheorems.NoDeadlock | src/cache/include/device_cache.h:85-106 | while any call is unfinished some thread can progress, across scene lock, entry mutexes and counter waits |
| DeviceCache.DeviceCacheEntry.GetAddresses | src/cache/include/device_cache.h:29-45 | returns the current vector and leaves the counters as they were |
| DeviceCache.DeviceCacheEntry.SetAddresses | src/cache/include/device_cache.h:49-63 | serves the new vector from the spare buffer and keeps the last one in the other |
| DeviceCache.Cache.AddScene | src/cache/include/device_cache.h:85-89 | adds an empty entry and pushes the key; the list stays tidy exactly for new keys |
| DeviceCache.Cache.RemoveScene | src/cache/include/device_cache.h:90-95 | takes the key off the map and its first occurrence off the list |
| CacheTheorems.EraseFirstIs | src/cache/include/device_cache.h:90-95 | erasing a key from the list takes its first place and leaves everything before and after |
| DeviceCache.Cache.GetDevices | src/cache/include/device_cache.h:98-102 | the value under the key, or the error for an unknown one, with no change |
| DeviceCache.Cache.SetDevices | src/cache/include/device_cache.h:103-106 | replaces the value of that key and no other |
| DeviceCache.DeviceRows | src/cache/include/cache_loader.h:62-99 | one pair for every row before the first that is no node: the hostname of the row or "", and its port or 0 |
| DeviceCache.ReadFromOnce | src/cache/include/cache_loader.h:62-99 | that description leaves only one list of addresses |
| DeviceCache.Cache.LoadScene | src/cache/include/cache_loader.h:33-111 | sets the scene's addresses to its leading device rows, if there are any |
| DeviceCache.Cache.LoadScenes | src/cache/include/cache_loader.h:113-118 | every listed scene whose query gave leading device rows holds exactly those, every other keeps its addresses, no scene comes or goes; a key may be listed twice |
| DeviceCache.LoadedAllIs | src/cache/include/cache_loader.h:113-118 | loading the scenes one after the other is loading each from the same rows |
| RegisteredAddresses.RegisterAddsAddress | src/cache/include/cache_loader.h:36-99 | registering a new device puts host and port of the message at the end of what the loader reads for that scene, and changes nothing for others |
| RegisteredAddresses.AlignKeepsAddresses | src/proc/query/device_query_helper.cpp:404-510 | aligning a device changes no address |
| Rotations.RotationIsProper | src/model/include/transform.h:98-114 | a matrix keeps all dot and cross products if and only if it is a proper rotation |
| Rotations.InverseOfRotation | src/model/transform.cpp:36-37 | the inverse of a rotation exists, is its transpose and a rotation |
| Rotations.OnlyInverse | src/model/transform.cpp:36-37 | whatever matrix undoes a rotation is that inverse, however the library computes it |
| Poses.AxisTurnIsRotation | src/model/include/transform.h:100-106 | the matrix of each of the three turns is a proper rotation |
| Poses.BuiltIsRotation | src/model/include/transform.h:98-114 | after every history of translate, rotate, add_transform and invert the matrix is a proper rotation, so no singular matrix is ever inverted |
| Motions.ValueIsBuilt | src/model/transform.cpp:29-81 | the rotation of every history of calls is the product that the code multiplies, in its order |
| Motions.TurnsAbout | src/model/include/transform.h:95-113 | rotate with index 0, 1 or 2 keeps the x, y or z axis and turns the other two |
| Motions.EulerMoves | src/model/include/transform.h:95-113 | three angles turn by z first, then y, then x |
| Poses.ComposeAssoc | src/model/transform.cpp:54-71 | adding transforms is associative |
| Poses.InvertUndoes | src/model/transform.cpp:29-38 | a transform and its inverse add up to the neutral one, either way round |
| Poses.InvertTwice | src/model/transform.cpp:29-38 | invert is an involution |
| Poses.InvertCompose | src/model/transform.cpp:29-71 | inverting a sum is adding the inverses in the other order |
| Poses.AddThenAddInverted | src/model/transform.cpp:54-71 | adding a transform and then adding it inverted restores translation and matrix |
| Transforms.ExtractsIsRebuilds | src/model/transform.cpp:20-26 | angles that move every vector as the matrix does are angles that rebuild it |
| Transforms.Transform.constructor | src/model/transform.cpp:41-51 | a new transform is neutral, with neither part set |
| Transforms.Transform.Angles | src/model/include/transform.h:91-96 | the angles read rebuild the matrix, whatever happened since the last reading |
| Transforms.Transform.Translation | src/model/include/transform.h:78-83 | reads the component asked for and refreshes stale angles |
| Transforms.Transform.Translate | src/model/include/transform.h:85-88 | sets that component of the translation and no other |
| Transforms.Transform.Rotate | src/model/include/transform.h:98-114 | multiplies the turn onto the matrix and keeps it a rotation |
| Transforms.Transform.AddTransform | src/model/transform.cpp:54-81 | the matrix of the argument, transposed when inverted, times the own one; translations added or subtracted component by component; as a value the composition; the argument may be the object itself |
| Transforms.Transform.InvertInPlace | src/model/transform.cpp:29-38 | the value becomes its inverse |
| Paths.StoredIsLossless | src/proc/query/algorithm_query_helper.cpp:151-170 | an edge stored as translation and angles and read back is the same transform |
| Paths.BuildEdge | src/proc/query/algorithm_query_helper.cpp:151-170 | the transform built from an edge, any of whose properties may be missing |
| Paths.CalculateTransform | src/proc/query/algorithm_query_helper.cpp:139-183 | the loop over a path computes the fold of its edges, backward ones inverted |
| Paths.LinkTransform | src/proc/query/algorithm_query_helper.cpp:51-64 | the second matrix times the transposed first, and the difference of the translations: the second transform after the inverse of the first |
| Motions.LinkMoves | src/proc/query/algorithm_query_helper.cpp:51-64 | that product takes where the first transform puts a vector to where the second puts it |
| Motions.FoldMoves | src/proc/query/algorithm_query_helper.cpp:139-183 | the transform of a path turns every vector as its edges do one after the other, backward ones undone |
| Motions.FoldSums | src/proc/query/algorithm_query_helper.cpp:139-183 | and its translation is the sum of theirs, backward ones negative |
| Motions.EdgeMoves | src/proc/query/algorithm_query_helper.cpp:139-183 | a stored edge turns by its z angle, then y, then x, missing angles not at all |
| Paths.FoldConcat | src/proc/query/algorithm_query_helper.cpp:142-183 | the fold of two paths in a row is the second's after the first's |
| Paths.FoldReversed | src/proc/query/algorithm_query_helper.cpp:142-183 | inverting a path's fold is folding the reversed path |
| GraphProofs.RegisterAddsOne | src/proc/query/device_query_helper.cpp:245-354 | registering to a scene adds that registration and changes no other |
| GraphProofs.RegisterKeepsOk | src/proc/query/device_query_helper.cpp:263-277 | it keeps the graph well-formed when the device was not registered there |
| GraphProofs.RemoveTakesOne | src/proc/query/device_query_helper.cpp:357-399 | removing deletes that registration and no other |
| GraphProofs.UpdateSetsOne | src/proc/query/device_query_helper.cpp:404-510 | updating sets that registration's transform and no other |
| SceneLinks.GetSceneLinkIs | src/proc/query/scene_query_helper.cpp:71-147 | the answer tells whether and which way a link runs when links are tagged, and is always 0 when they are not |
| SceneLinks.CreateIsPair | src/proc/query/scene_query_helper.cpp:150-255 | creating adds one link between the two scenes and changes none |
| SceneLinks.UpdateIsPair | src/proc/query/scene_query_helper.cpp:258-365 | updating sets the transform of the links between the two scenes, in that direction, and of no other |
| SceneLinks.RelinkIs | src/proc/query/algorithm_query_helper.cpp:24-67 | after the loop, the newest link between s and each other scene of the rows carries the transform to s; links that join no such pair are as they were |
| Registration.MessageProcessor.IsUdRegistered | src/proc/query/device_query_helper.cpp:21-97 | finds a registration exactly when there is one |
| Registration.MessageProcessor.GetRegistrations | src/proc/query/device_query_helper.cpp:136-241 | reads the results up to the first with an object that is neither node nor edge, missing edge properties as -999; no list when there is none |
| Registration.ReadShown | src/proc/query/device_query_helper.cpp:143-233 | what the query shows of the graph reads as the device's scenes with its transforms there, without any default |
| Registration.ReadAllIs | src/proc/query/device_query_helper.cpp:126-225 | one scene is read for every result before the first with an object that is neither node nor edge |
| Registration.ReadOneIs | src/proc/query/device_query_helper.cpp:147-213 | a missing scene key reads as empty, a device without key is left out, each missing edge property reads as -999 |
| Registration.MessageProcessor.ProcessUdud | src/proc/query/algorithm_query_helper.cpp:24-67 | the loop never fails and relinks every other scene |
| Registration.MessageProcessor.ProcessRegistration | src/proc/processor/message_processor.cpp:23-282 | new graph and answer of a registration, error cases included |
| Registration.MessageProcessor.ProcessDeregistration | src/proc/processor/message_processor.cpp:287-325 | new graph and answer of a deregistration |
| Registration.MessageProcessor.ProcessAlignment | src/proc/processor/message_processor.cpp:334-418 | new graph and answer of an alignment |
| RegistrationProofs.NextKeepsSound | src/proc/processor/message_processor.cpp:80-104 | every message keeps scene keys unique, at most one registration per scene and device key, exactly one edge into each device node, and links tagged as the mode says |
| RegistrationProofs.EveryRun | src/proc/processor/message_processor.cpp:23-418 | so does every run from an empty graph, with or without empty keys in its messages |
| RegistrationTheorems.RegisterExactly | src/proc/processor/message_processor.cpp:169-185 | a registration leaves the device registered there, neutral if it is new, and touches no other registration and no link |
| RegistrationTheorems.RegisterStores | src/proc/processor/message_processor.cpp:173-178 | the node of a new registration holds key, connection, host and port of the message, field by field, and no node there was changes |
| RegistrationTheorems.OthersKeepNodes | src/proc/query/device_query_helper.cpp:358-402 | alignment changes no device node, deregistration takes exactly those of the registration |
| RegistrationTheorems.AnswersAre | src/proc/processor/message_processor.cpp:28-404 | the answer to every request, complete or not, as a function of the request and of whether the registration exists |
| RegistrationTheorems.RegisterTwice | src/proc/processor/message_processor.cpp:92-104 | registering again changes nothing and is answered the same |
| RegistrationTheorems.EmptySceneKeyRegistersNothing | src/proc/processor/crud_message_processor.cpp:35-49 | with an empty scene key a scene is created under a generated key and the device is registered nowhere, though the answer reports success |
| RegistrationTheorems.DeregisterExactly | src/proc/processor/message_processor.cpp:303-316 | a deregistration removes exactly that registration and leaves the device's others, the scenes and the links |
| RegistrationTheorems.DeregisterUndoesRegister | src/proc/processor/message_processor.cpp:287-325 | deregistering a newly registered device brings back exactly the registrations there were |
| RegistrationTheorems.AlignExactly | src/proc/processor/message_processor.cpp:351-373 | an alignment sets that one transform, or answers NOT_FOUND and changes nothing |
| RegistrationTheorems.AlignLinks | src/proc/processor/message_processor.cpp:391-404 | the newest link between the scene and each other scene of the device carries the transform to it, other links stay, and tagged links stay one per pair |
| RegistrationTheorems.AlignTagged | src/proc/query/algorithm_query_helper.cpp:51-64 | with tagged links there is one link per such pair and it carries the transform, whichever way it runs |
| Telescoping.RunTelescopes | src/proc/query/algorithm_query_helper.cpp:33-66 | while one device is aligned and not deregistered, every newest link is the transform between its places in the two scenes, in both modes |
| LinkPaths.PathFolds | src/proc/query/algorithm_query_helper.cpp:139-183 | along links that are the transform between the device's places, every path, of any length and with edges in either direction, folds to the transform between its ends |
| LinkPaths.ClosedWalkFolds | src/proc/query/algorithm_query_helper.cpp:139-183 | and every closed walk to the neutral one |
| LinkPaths.OneHopFolds | src/proc/query/algorithm_query_helper.cpp:92-94 | a path over one stored link folds right if and only if the link is right, so a wrong link is a path that folds wrong |
| LinkPaths.PathsFoldExactly | src/proc/query/algorithm_query_helper.cpp:92-183 | all paths along stored links between the device's scenes fold right if and only if all those links are right |
| LinkPaths.PathsTelescope | src/proc/query/algorithm_query_helper.cpp:139-183 | after every run of one aligned device, in both modes, paths along newest links fold to the transform between their ends and closed walks to the neutral one |
| LinkPaths.AllPathsExactly | src/proc/query/algorithm_query_helper.cpp:92-183 | after every such run, in both modes, paths along whatever links all fold right if and only if all links are right |
| LinkPaths.TaggedRun | src/proc/query/scene_query_helper.cpp:71-75 | with tagged links every such run leaves one link per pair, all of them right |
| LinkPaths.TaggedPathsTelescope | src/proc/query/algorithm_query_helper.cpp:139-183 | with tagged links, after every such run, every path from scene to scene folds to the transform between the device's places in them and every closed walk to the neutral one |
| UntaggedLinks.CodedAlignment | src/proc/query/scene_query_helper.cpp:165-170 | as coded an alignment keeps every link and adds one right link for each other scene |
| UntaggedLinks.CodedKeepsOneLinkPerPair | src/proc/query/scene_query_helper.cpp:126-135 | as coded there is still one link per pair if and only if none joined the scene and another of the device |
| UntaggedLinks.CodedKeepsAllTelling | src/proc/query/algorithm_query_helper.cpp:51-64 | as coded all links stay right if and only if the device did not move there or no link touched the scene |
| CodedRuns.WrongStaysWrong | src/proc/query/algorithm_query_helper.cpp:33-66 | as coded no alignment makes all links right when one was wrong: a move that corrects an old link spoils the newest of its pair |
| CodedRuns.StepTells | src/proc/processor/message_processor.cpp:28-404 | as coded all links are right after a message if and only if they were before and the message is no alignment that moves the device at a scene some link touches |
| CodedRuns.CodedRunTellsExactly | src/proc/query/scene_query_helper.cpp:126-170 | as coded, after any run of one aligned device, all links are right if and only if each of its alignments left the device where it was or found no link at its scene |
| CodedRuns.CodedPathsExactly | src/proc/query/algorithm_query_helper.cpp:92-183 | and exactly then do all paths fold right |
| UntaggedLinks.AligningTwice | src/proc/processor/message_processor.cpp:334-404 | a run after which, as coded, there are two links, one of them wrong, the path over it folds wrong and the closed walk over both is not neutral; when tagged there is one right link and every path folds right |
| Json.ReadEmit | src/api/json_scene_list.cpp:477-487 | reading the events of a tree gives back the tree, whatever follows |
| Json.EmitRead | src/api/json_scene_list.cpp:477-487 | whatever is read as a tree was written as that tree |
| SceneListProofs.PlacementRoundTrip | src/api/json_scene_list.cpp:317-368 | a transform comes back with exactly the parts that were set |
| MessageTransforms.ReadTransform | src/api/json_scene_list.cpp:317-368 | the loops over members and items of a transform call translate and rotate on a new Transform, which then has the value and flags of the specification |
| MessageTransforms.RotationsMultiply | src/api/json_scene_list.cpp:349-362 | whatever the members, every rotation among them multiplies the matrix by that of its three angles, a second one too, and no other member touches it |
| MessageTransforms.TransformRoundTrips | src/api/json_scene_list.cpp:663-690 | printing a Transform, the rotation as its extracted angles, and parsing it again restores translation, matrix and both flags |
| MessageTransforms.OneRotationAgrees | src/api/json_scene_list.cpp:317-368 | with at most one rotation member the angles that the parser of the proofs reads rebuild the matrix of the Transform |
| SceneListProofs.SceneRoundTrip | src/api/json_scene_list.cpp:182-470 | what comes back of a printed scene |
| SceneListProofs.ListRoundTrip | src/api/json_scene_list.cpp:21-475 | what comes back of a printed list, for every list, fields that are dropped, replaced or swapped included |
| SceneListTheorems.ComesBackExactly | src/api/json_scene_list.cpp:21-475 | the list itself comes back if and only if it says only what parsing keeps |
| SceneListTheorems.FirstScenesComeBack | src/api/json_scene_list.cpp:565-578 | for num_records from -1 on, the first min(num_scenes, num_records) scenes come back, all of them for -1, with assets, tags, transform and keyed devices |
| SceneListTheorems.PrintsTheSameAgain | src/api/json_scene_list.cpp:477-761 | printing what was parsed gives the same message if and only if the printed part holds nothing that parsing drops or replaces |
| WireFormat.PublicnessRead | src/api/json_scene_list.cpp:231-245 | for every member list a boolean "private" decides with its negation, else a boolean "public", else the scene is public |
| WireFormat.SceneTextsRead | src/api/json_scene_list.cpp:180-255 | each text of a scene is the string of the member of its name, or empty |
| WireFormat.SceneAmountsRead | src/api/json_scene_list.cpp:255-290 | coordinates and distance are read from doubles and from ints |
| WireFormat.StringsRead | src/api/json_scene_list.cpp:292-316 | assets and tags are the strings of their arrays in order, other items are skipped |
| WireFormat.ItemsRead | src/api/json_scene_list.cpp:292-316 | what is no array, or not there, has no items |
| WireFormat.DeviceRead | src/api/json_scene_list.cpp:375-410 | a device needs a string key; its texts and port come from the members of their names |
| WireFormat.TripleRead | src/api/json_scene_list.cpp:337-348 | each component of a translation or rotation is the number at its place, double or int |
| WireFormat.ListRead | src/api/json_scene_list.cpp:21-160 | message type, operation, error code and counts of a list with their defaults; the port is never read |
| WireFormat.EncryptionRead | src/api/json_scene_list.cpp:50-88 | the encryption password is read as key and the iv as salt unless those are given |
| WireFormat.ScenePrinted | src/api/json_scene_list.cpp:582-620 | each text of a scene is printed under its name unless empty, and never a "private" |
| WireFormat.SceneValuesPrinted | src/api/json_scene_list.cpp:620-760 | amounts above -9999, flags, lists, transform and devices are printed under their names |
| WireFormat.DevicePrinted | src/api/json_scene_list.cpp:696-745 | the fields of a device under their names, a negative port modulo 2^32 |
| WireFormat.ListPrintedNumbers | src/api/json_scene_list.cpp:486-580 | the numbers of a list, num_records being the number of scenes printed, and no "operation" |
| JsonSceneList.JsonSceneList.constructor | src/api/json_scene_list.cpp:21-475 | the member by member parse is the parser of the proofs; a document that is no object leaves the defaults |
| JsonSceneList.JsonSceneList.ToMsgString | src/api/json_scene_list.cpp:477-761 | the writer events are those of the list's tree |
| JsonSceneList.ParseDevices | src/api/json_scene_list.cpp:371-466 | devices without a key are dropped, the others read in order |
| JsonSceneList.SceneEvents | src/api/json_scene_list.cpp:578-752 | the events of one scene |
| JsonSceneList.PrintReadParse | src/api/json_scene_list.cpp:21-761 | printing, reading the events as one document and parsing it, from end to end |
| FailoverProofs.InvStep | src/app/include/database_manager.h:96-137 | every step of every interleaving keeps lock, connection, counter and log in order |
| FailoverProofs.NeverReplacedInUse | src/app/include/database_manager.h:92-105 | no connection is replaced while a query runs, and every query runs on the connection there is |
| FailoverProofs.FailoverSpacing | src/app/include/database_manager.h:98-104 | any two failovers are at least six failed queries apart for each step between them, and six times the failovers plus the counter never exceeds the failures |
| FailoverProofs.CounterBound | src/app/include/database_manager.h:64-64 | the counter exceeds five by at most the threads that have counted a failure and not looked yet; when there is none it is at most five |
| FailoverProofs.NoDeadlock | src/app/include/database_manager.h:115-137 | while a call is unfinished some thread can take a step of its call |
| FailoverProofs.CallsEnd | src/app/include/database_manager.h:115-137 | every interleaving takes at most 88 steps per call begun |
| FailoverCalls.CallsReturnTheirLast | src/app/include/database_manager.h:114-143 | in every interleaving a call returns after at most eleven queries, successfully if and only if its last one succeeded, unsuccessfully only after eleven |
| FailoverCalls.OnlyTheLockBlocks | src/app/include/database_manager.h:96-125 | queries wait for a failover only, a failover for queries and failovers, and nothing else waits |
| FailoverCalls.QueriesRunTogether | src/app/include/database_manager.h:124-126 | any number of threads can run their queries at once |
| FailoverCalls.CountsAreSteps | src/app/include/database_manager.h:91-136 | the connection is the number of replacements made, and the failures counted, with those about to be, are the failed queries |
| DatabaseManager.FailuresFirstIs | src/app/include/database_manager.h:117-136 | the number of failed attempts before the first success |
| DatabaseManager.DatabaseManager.SetNewConnection | src/app/include/database_manager.h:96-105 | replaces connection and counter exactly when the counter exceeds five |
| DatabaseManager.DatabaseManager.Execute | src/app/include/database_manager.h:115-137 | succeeds on the first success among eleven attempts; failures are six per failover plus the counter, which stays at most five; at most two failovers in a call |
| Query.ParseRender | src/proc/query/include/base_query_helper.h:227-288 | parsing a rendered query gives back the query, for every query |
| Query.RenderParse | src/proc/query/include/base_query_helper.h:227-288 | whatever parses is the rendering of what it parses to |
| QueryBuilder.AppendMatch | src/proc/query/include/base_query_helper.h:228-261 | the map the running comma flag produces is the rendering of the filter's equalities |
| QueryBuilder.AppendWhere | src/proc/query/include/base_query_helper.h:262-288 | so is the WHERE clause with its AND flag |
| QueryBuilder.GenerateSceneCrudQuery | src/proc/query/include/base_query_helper.h:160-327 | the tokens of all four operations |
| QueryBuilder.GenerateQueryParameters | src/proc/query/include/base_query_helper.h:336-428 | the parameters, each present exactly under its condition |
| QueryMeaning.ClosedExactly | src/proc/query/include/base_query_helper.h:366-382 | for every key, operation and scene every placeholder is bound except exactly for CREATE and UPDATE with a coordinate below -9999 and a keyless GET whose distance clause has a distance of at most 0.01 |
| QueryEvaluation.SortByKeyIs | src/proc/query/include/base_query_helper.h:323-326 | the rows are the selected nodes, each as often as selected, in key order |
| QueryEvaluation.KeylessGetMeansFilter | src/proc/query/include/base_query_helper.h:227-288 | for every filter, store, start and count the generated query parses, and evaluated with the generated parameters selects exactly the scenes meeting the filter, in key order, skipped and limited, or is refused exactly when the distance is missing or start or count is negative |
| QueryEvaluation.KeylessGetSelectsExactly | src/proc/query/include/base_query_helper.h:227-288 | the same with the numbers written out: the rows are the stored scenes with the given name, region, tags, visibility and, for coordinates above -9998.9 and distance above 0, a place within it; refused for a distance above 0 and at most 0.01 |
| QueryEvaluation.DistanceFilters | src/proc/query/include/base_query_helper.h:268-287 | with coordinates above -9998.9 and a distance above 0.01 the rows are those without a distance that lie within it |
| QueryEvaluation.PlaceIsIgnored | src/proc/query/include/base_query_helper.h:268-287 | with a coordinate at most -9998.9 or a distance at most 0 places make no difference |
| QueryEvaluation.VisibilityNeedsNameOrRegion | src/proc/query/include/base_query_helper.h:230-260 | without a name or region, user and publicness of the filter make no difference |
| QueryEffects.CreateStores | src/proc/query/include/base_query_helper.h:291-321 | running the clauses of a closed CREATE stores each given field under its own property |
| QueryEffects.UpdateSets | src/proc/query/include/base_query_helper.h:184-220 | running the clauses of a closed UPDATE replaces given fields, appends to or filters lists, and leaves the rest |
| QueryEffects.UpdatedFields | src/proc/query/include/base_query_helper.h:184-220 | the updated node property by property, with the list operations 10 and 11 |
| QueryEffects.CreatedFields | src/proc/query/include/base_query_helper.h:291-321 | the created node property by property |
| QueryEffects.RemoveUndoesAppend | src/proc/query/include/base_query_helper.h:207-220 | removing what was appended restores a list if and only if none of it was there before |
| QueryEffects.CreateThenGet | src/proc/processor/crud_message_processor.cpp:190-275 | a scene created under a new key is found by a get exactly when the get's visibility fits, and comes back whole but for publicness, distance, transform and devices |
| StoredScenes.CreateOnStore | src/proc/query/include/base_query_helper.h:160-325 | the generated CREATE, run on all stored scenes, adds exactly one, or is refused if and only if a latitude or longitude is below -9999 |
| StoredScenes.UpdateOnStore | src/proc/query/include/base_query_helper.h:168-221 | the generated UPDATE changes exactly the scenes with its key, each as the fields say, or is refused in the same case |
| StoredScenes.KeylessUpdateIsRefused | src/proc/query/include/base_query_helper.h:183-185 | an UPDATE without a key is no query, whatever it gives |
| StoredScenes.DeleteOnStore | src/proc/processor/crud_message_processor.cpp:293-309 | a DELETE is never refused and removes exactly the scenes with its key |
| StoredScenes.DeleteTokens | src/proc/query/include/base_query_helper.h:224-225 | the query text that is written out for a delete is the one the builder would generate |
| StoredScenes.ProcessCreate | src/proc/processor/crud_message_processor.cpp:26-101 | answer and stored scenes after a create message, with a generated key where none is given |
| StoredScenes.ProcessUpdate | src/proc/processor/crud_message_processor.cpp:104-187 | answer and stored scenes after an update message: too little data, refused, or the scenes of the key updated, of which there may be none |
| StoredScenes.ProcessDelete | src/proc/processor/crud_message_processor.cpp:279-338 | answer and stored scenes after a delete message |
| StoredScenes.DeleteUndoesCreate | src/proc/processor/crud_message_processor.cpp:26-338 | a delete undoes a create if and only if the key was new |
| StoredScenes.DeleteForgetsUpdate | src/proc/processor/crud_message_processor.cpp:107-338 | deleting what was updated leaves what deleting alone leaves |
| StoredScenes.UpdateThenGet | src/proc/processor/crud_message_processor.cpp:107-275 | after an update a get under its key finds exactly the updated scenes of that key that it may see |
| StoredScenes.KeyedGetSelectsExactly | src/proc/query/include/base_query_helper.h:170-181 | a retrieval by key finds the scenes with the key that are public, or the user's own for a private one |
| StoredScenes.DeletedIsGone | src/proc/processor/crud_message_processor.cpp:190-338 | after a delete a get under its key is answered NOT_FOUND |
| StoredScenes.OtherKeysUnaffected | src/proc/processor/crud_message_processor.cpp:26-338 | what gets under another key find is the same before and after each of the three |
| Retrieving.ProcessRetrieve | src/proc/processor/crud_message_processor.cpp:189-275 | the answer of a retrieval: scenes found in order, or one of the error codes |
| Retrieving.KeyedSelects | src/proc/query/include/base_query_helper.h:170-181 | a retrieval by key is never refused and selects by key and visibility |
| Retrieving.PageIsSlice | src/proc/processor/crud_message_processor.cpp:207-258 | a page is the requested slice of the matches, cut to ten when printed; a slice without rows is NOT_FOUND |
| Retrieving.RefusedExactly | src/proc/processor/crud_message_processor.cpp:212-266 | a keyless retrieval is answered PROCESSING_ERROR if and only if its distance is missing or its start or count is negative |
| Retrieving.RefusalsAre | src/proc/processor/crud_message_processor.cpp:190-275 | for every request: PROCESSING_ERROR if and only if it has no scene, asks for private scenes of no user, or is keyless with a negative start or count or a distance above 0 and at most 0.01 |
| Retrieving.AnswerIs | src/proc/processor/crud_message_processor.cpp:189-275 | the answer with each field of each scene: what is stored, or the default |
| QueryEvaluation.UptoIsLexicographic | src/proc/query/include/base_query_helper.h:325-325 | the order of keys is lexicographic |
| Retrieving.CollectTiles | src/api/json_scene_list.cpp:565-578 | pages of n tile a list if and only if n or the list is within the cap |
| Retrieving.PagesTile | src/proc/processor/crud_message_processor.cpp:207-258 | asking for 0, n, 2n and so on until NOT_FOUND shows every match once in key order if and only if n or the number of matches is at most ten, after ceil(m/n) + 1 requests |
| Retrieving.KeyOrderIsUnique | src/proc/query/include/base_query_helper.h:325-325 | with distinct keys there is only one key order |

## Left out

- Plumbing: Poco, Boost, Neo4j, Consul, Vault, encryption, sockets, logging and the HTTP handlers. The readers-writer lock admits many readers or one writer; each message is one atomic step without database errors.
- Floating-point rounding and the inside of GLM: numbers are exact reals, and angle extraction is a parameter whose results rebuild the matrix.
- Transform::clear (src/model/include/transform.h:123-129), which empties vectors that later calls index, and rotate with an index above 2, whose matrix is not initialised.
- The move of a vector into a buffer is two steps, between which the buffer holds neither the old nor the new vector; the vector's own memory is not modelled.
- DeviceCache.DeviceCacheEntry.SetAddresses: with no other call under way the wait for readers is over at once; the wait itself is in EntryProofs.
- DeviceCache.Cache.LoadScenes: the unlocked copy of the key list at the start of the loop is one step, and the rows a query returns are a parameter.
- SceneLinks.UpdateIsPair: the query text of update_scene_link mixes = and : (src/proc/query/scene_query_helper.cpp:276-278); as coded it is never reached, and with tagged links it sets the transform, which is its purpose.
- LinkPaths.PathsTelescope: starts from an arbitrary returned path, because the search query binds both of its keys to one name (src/proc/query/algorithm_query_helper.cpp:100-104).
- The branches under previously_registered, which is never true (src/proc/processor/message_processor.cpp:33, 121), and the event information of a registration answer.
- LinkPaths.AllPathsExactly: asks of each link that some stored edge holds its transform; that angles exist for every rotation is the extraction's contract.
- Registration.MessageProcessor.ProcessAlignment: the message's device has a transform; the code uses a null pointer when it has none.
- Registration.MessageProcessor.ProcessRegistration: a scene is created with its key only; the other properties a CREATE stores are in QueryEffects.
- JsonSceneList.JsonSceneList.constructor: documents that the JSON library itself refuses with an assertion (a scene or device that is no object, an event destination port that is a string) are read as having no members; items past the third of a translation or rotation are ignored; a second rotation member overwrites angles, where the code multiplies, which is in MessageTransforms.
- SceneListTheorems.ComesBackExactly: user, operation, event destination port and the encryption password and iv do not come back, and the theorem says so by its condition; the uninitialised port is a parameter.
- Start-up of DatabaseManager: a thread that loses the race at src/app/include/database_manager.h:120 may run before the connection exists; concurrent runs begin after initialisation, and service discovery succeeds.
- SceneListProofs.PlacementRoundTrip: a rotation is the angles the library extracts, and rotate sets one of them; the round trip of the matrix itself is MessageTransforms.TransformRoundTrips.
- QueryEvaluation.KeylessGetMeansFilter: the haversine formula is a function parameter of the latitude, the longitude and the node's place.
- Retrieving.PagesTile: start plus page size stays below 2^31.
- QueryBuilder.GenerateSceneCrudQuery: a CREATE or DELETE with an empty key is not well-formed Cypher; no message makes one, and the model gives its tokens and their placeholders, nothing more.
- StoredScenes: each message is one query on the list of stored scenes; a scene's edges, which a delete takes with it, are not part of it.
- The sender slots of event_stream (src/app/include/event_stream_process.h:179-194), routing, string utilities, the account manager, factories and getters.
