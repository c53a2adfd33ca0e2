# Verified models of the revel request core and the anbox camera

Dafny models of the parts of this repository whose behaviour cannot be exhausted by tests, with proofs about all
inputs, all runs and all interleavings.

| files | what they model |
|---|---|
| `Text`, `BinderTypes`, `BinderSpec`, `BinderRoundTrip`, `BinderLeaves`, `BinderOrder`, `BinderAbsent`, `NumberText`, `Binder` | revel's parameter binder: Unbind prints a typed tree to flat keys, Bind parses them back while walking Go maps in an arbitrary order |
| `ObjectPool` | the locked object pool on a doubly linked list with a cursor, and the histories of its clients |
| `RefreshWatcher`, `RefreshOutcome` | the rebuild protocol of the watcher: one leader, any number of followers, a channel of ten, and what its messages say |
| `TemplateCache` | the copy-on-write template cache: snapshots, version check, publication |
| `SessionCookie`, `SessionOutcome` | the session cookie: serialization, framing, escaping, signature, and the way back |
| `CameraPipeline`, `PipelineDrain`, `JpegHandOver`, `InFlightRing` | the request pipeline of the emulated camera 2 as atomic steps between lock boundaries, the loss of JPEG requests, and the four-slot ring |
| `ControlThread`, `ControlOutcome`, `ControlLoop` | the auto-focus and auto-exposure state machine of the same camera |
| `StreamTable` | the stream allocator with its category counters and 32-bit ids |
| `Yuv`, `FrameLayout`, `Converters` | colour arithmetic and the YUV 4:2:0 converters with moving pointers |
| `FrameWriting`, `Checkerboard`, `Square`, `FakeCameraDevice` | the fake camera: plane layout, drawing, preview |

Code that changes things step by step is modelled by classes and loops whose contracts equate the new state with a
specification function of the old one. The claims about runs are lemmas about those functions. A protocol is a
state, an `Enabled` and an `Apply` for each step, and a run is a sequence of states linked by steps. Run
`dafny verify dfyconfig.toml` in this directory.

Points where the code differs from what its comments or names suggest, all stated as lemmas or contracts:

- The continuous auto-focus start rate is meant to be once in 5 seconds; its value is 2e16, so a passive scan always
  starts (`ControlThread.PassiveScanAlwaysStarts`).
- Registering a stream with a format of another category makes a counter wrap at release, and the category is locked
  for good (`StreamTable.UnderflowIsForever`, `StreamTable.ChangedCategoryLocksOut`); `StreamTable.StaysExactIff` has
  the exact condition.
- The search for a resolution counts entries where it should count pairs (`StreamTable.SizeFoundIff`,
  `StreamTable.AlwaysFoundIffListed`).
- A reprocess request can be lost to a full queue (`CameraPipeline.DroppedIffReprocess`).
- The configure thread waits for the JPEG compressor before it publishes a request, but the compressor may be busy by
  the time the request is read out, and then the request is lost (`JpegHandOver.SecondCaptureLost`);
  `JpegHandOver.JpegLostIff` has the exact condition.
- The template cache writes under the bare name too, so languages can disturb each other
  (`TemplateCache.TransparentIffDisjoint`).
- A follower of the watcher can get the result of an earlier rebuild (`RefreshWatcher.StaleRun`), exactly when a leader
  starts before the channel is drained (`RefreshWatcher.StaleResultIffUndrained`).
- The binder loses map keys with a dot or an opening bracket, trailing slice elements and map values that write no
  key, and unexported fields; a closing bracket alone in a map key is harmless. `BinderSpec.Faithful` is the exact
  condition for a value to come back. With an opening bracket in a map key the result can depend on the iteration
  order (`BinderOrder.UncleanKeysDependOnOrder`); without one, and without a dot, it never does
  (`BinderOrder.OrderIndependent`).
- Drawing into a frame of odd width or height writes behind its end, but for a planar one of two rows
  (`FrameLayout.StaysInFrameIff`).
- `YV12ToRGB565` takes the U plane first, `YV12ToRGB32` the V plane (`Converters.Yv12ToRgb565`).
- The fields of the checkerboard are square only if a tenth of the width is odd, and else one row higher than wide
  (`Checkerboard.FieldsAreSquareIffOdd`).

## Model

| member | source | states |
|---|---|---|
| `Text.ParseFormatted` | src/foundation/api/revel/binder.go:81-98 | parsing the decimal text of any 64-bit integer gives that integer back |
| `BinderTypes.ParseAtomOfText` | src/foundation/api/revel/binder.go:81-156 | each scalar binder reads back what its Unbind prints, for every int and uint width, bool and string |
| `BinderTypes.ParsedAtomHasType` | src/foundation/api/revel/binder.go:81-156 | whatever the text, a scalar binder yields a value of the width asked for |
| `NumberText.IntOfText` | src/foundation/api/revel/binder.go:81-98 | an int of any width is the low bits of the number the digits spell, if it fits 64 bits, and 0 for any other text |
| `NumberText.UintOfText` | src/foundation/api/revel/binder.go:100-116 | an unsigned int likewise, without a sign |
| `NumberText.FlagOfText` | src/foundation/api/revel/libs.go:78-86 | a flag is false exactly for six words, in any case and between any spaces |
| `NumberText.SpacesByCode` | src/foundation/api/revel/libs.go:79 | the spaces cut off are those of Unicode |
| `NumberText.PrintedAtom` | src/foundation/api/revel/binder.go:95-156 | numbers are printed as their digits without leading zeros or plus sign, flags as true or false, strings as they are |
| `BinderSpec.NextKey` | src/foundation/api/revel/binder.go:281-287 | the next key is a prefix that holds no dot and no opening bracket |
| `BinderRoundTrip.ElementKeyParses` | src/foundation/api/revel/binder.go:210-230 | every key that starts with an element name is indexed by that element and by no other, and its sub-key is the element name |
| `BinderRoundTrip.EntryKeyParses` | src/foundation/api/revel/binder.go:434-453 | every key of a map entry whose text has no dot and no opening bracket shows that text as its field |
| `BinderRoundTrip.MapFieldClean` | src/foundation/api/revel/binder.go:434-453 | the map fields bindMap extracts never hold a dot or an opening bracket, so such keys cannot come back |
| `BinderRoundTrip.LeavesUnder` | src/foundation/api/revel/binder.go:289-294 | Unbind writes only keys that are the name or continue it with a dot or a bracket |
| `BinderRoundTrip.SpeaksIffLeaves` | src/foundation/api/revel/binder.go:289-294 | a value writes at least one key exactly if it holds a scalar reachable through exported fields |
| `BinderRoundTrip.SilentFaithfulIsZero` | src/foundation/api/revel/binder.go:338-350 | a faithful value that writes no key is the zero value, which is what Bind makes of an absent parameter |
| `BinderRoundTrip.ComponentCarries` | src/foundation/api/revel/binder.go:436-450 | the framing of a whole value gives the framing of each of its components |
| `BinderLeaves.PathReachesLeaf` | src/foundation/api/revel/binder.go:289-294 | every path through elements, exported fields and map entries that ends at a scalar stands for a pair Unbind writes |
| `BinderLeaves.LeafHasPath` | src/foundation/api/revel/binder.go:289-294 | every pair Unbind writes is reached by such a path |
| `BinderLeaves.LeavesApart` | src/foundation/api/revel/binder.go:281-294 | two different paths of a whole value never have the same key, unless some map key in it has a closing bracket, right behind it a dot or an opening bracket, and an opening bracket from there on |
| `BinderLeaves.EachKeyOnce` | src/foundation/api/revel/binder.go:483-491 | so every key written has one text: no leaf of the value overwrites another |
| `BinderLeaves.CleanKeysAreClosed` | src/foundation/api/revel/binder.go:281-287 | map keys without a dot or an opening bracket never are of that kind |
| `BinderLeaves.ReopeningKeysCollide` | src/foundation/api/revel/binder.go:457-463 | a map key of the form a][c, for any a and c, shares a printed key with an entry under a: one of the two texts is lost |
| `BinderRoundTrip.BoundHasType` | src/foundation/api/revel/binder.go:468-473 | for arbitrary parameters, every result of Bind is a value of the requested type |
| `BinderAbsent.AbsentIsBlank` | src/foundation/api/revel/binder.go:50-55 | an absent parameter of any type binds to 0, false, the empty string, an empty slice or map, and a struct of such values, and to nothing else |
| `BinderAbsent.NoTextIsBlank` | src/foundation/api/revel/binder.go:51-53 | a parameter without any text counts as absent |
| `BinderAbsent.UnboundFieldIsBlank` | src/foundation/api/revel/binder.go:296-336 | an unexported field, and one without parameters, is left blank in the same sense |
| `BinderAbsent.GapIsBlank` | src/foundation/api/revel/binder.go:266-275 | the elements between the indices in use are blank |
| `BinderAbsent.IndexBetweenBrackets` | src/foundation/api/revel/binder.go:222-228 | the index is the number between the brackets, cut at the largest int; empty brackets give none, and a text that starts like no number gives 0 |
| `BinderAbsent.UnindexedInOrder` | src/foundation/api/revel/binder.go:241-250 | texts under empty brackets become the elements in their order |
| `BinderAbsent.MapNamePanics` | src/foundation/api/revel/binder.go:436-444 | a map of scalars panics exactly for a parameter equal to its name |
| `BinderRoundTrip.ExtentIsLastSpeaking` | src/foundation/api/revel/binder.go:266-275 | the bound slice is as long as the last element that wrote a key |
| `BinderRoundTrip.RoundTripSlice` | src/foundation/api/revel/binder.go:210-275 | a slice comes back exactly if all its elements do and the last one wrote a key |
| `BinderRoundTrip.RoundTripStruct` | src/foundation/api/revel/binder.go:296-336 | a struct comes back exactly if its exported fields do and its unexported fields are zero |
| `BinderRoundTrip.RoundTripMap` | src/foundation/api/revel/binder.go:420-463 | a map whose keys hold no dot or opening bracket comes back exactly if every value writes a key and comes back |
| `BinderRoundTrip.RoundTrip` | src/foundation/api/revel/binder.go:468-491 | Bind over the keys written by Unbind, among any keys that do not concern the name, returns the value for every iteration order if the value is faithful, and for no iteration order if it is not |
| `BinderOrder.BindsKept` | src/foundation/api/revel/binder.go:468-491 | Bind over the keys printed for any value with clean map keys returns what is kept of it, for every iteration order: slices cut after the last element that wrote a key, silent elements and fields and unexported fields zero, silent map entries gone |
| `BinderOrder.OrderIndependent` | src/foundation/api/revel/binder.go:210-277 | two runs of Bind on the same printed value agree, faithful or not, whatever the iteration orders and the foreign keys, if no map key in it holds a dot or an opening bracket |
| `BinderOrder.FaithfulIsKept` | src/foundation/api/revel/binder.go:468-491 | the values that come back whole are those with clean map keys of which everything is kept |
| `BinderOrder.UncleanKeysDependOnOrder` | src/foundation/api/revel/binder.go:434-453 | with an opening bracket in a map key the order matters: {"a": {1: x}, "a][+1": {2: y}} comes back as {"a": {1: x}} or as {"a": {1: ""}} |
| `Binder.Unbind` | src/foundation/api/revel/binder.go:483-491 | in any walk of the maps involved, the output is the old output with exactly the leaves of the value written over it |
| `Binder.UnbindSlice` | src/foundation/api/revel/binder.go:289-294 | the loop over the elements writes the leaves of all elements under indexed names |
| `Binder.UnbindStruct` | src/foundation/api/revel/binder.go:338-350 | the loop over the fields writes the leaves of the exported fields |
| `Binder.UnbindMap` | src/foundation/api/revel/binder.go:457-463 | the loop over the keys, in any order, writes the leaves of all entries |
| `Binder.Bind` | src/foundation/api/revel/binder.go:468-473 | the result is one that some iteration order leads to; None is a run-time panic |
| `Binder.BindSlice` | src/foundation/api/revel/binder.go:210-277 | collecting, sizing and placing elements yields the slots below the largest index and then the un-indexed values |
| `Binder.BindStruct` | src/foundation/api/revel/binder.go:296-336 | each mentioned exported field is bound once, all others keep their zero value |
| `Binder.BindMap` | src/foundation/api/revel/binder.go:420-455 | the entries are those of the map fields among the parameters; a parameter equal to the name panics |
| `Binder.BindUnindexed` | src/foundation/api/revel/binder.go:241-250 | each un-indexed text is bound on its own, in the order of the values |
| `Binder.PlaceValues` | src/foundation/api/revel/binder.go:266-275 | an indexed slot holds a value found for its index, or zero if there was none |
| `Binder.UnbindThenBind` | src/foundation/api/revel/binder.go:468-491 | printing a value and binding it among foreign parameters gives the value back if and only if it is faithful |
| `ObjectPool.SimpleLockStack.constructor` | src/foundation/api/revel/utils/simplestack.go:28-47 | the linked nodes hold the created objects in order, with the counters of a pool that starts full |
| `ObjectPool.SimpleLockStack.Pop` | src/foundation/api/revel/utils/simplestack.go:48-66 | the heap structure refines the bounded stack: the top object, or a new one when empty, and the cursor moves back |
| `ObjectPool.SimpleLockStack.Push` | src/foundation/api/revel/utils/simplestack.go:67-91 | the object is stored in a reused or a new node unless the pool is full, in which case it is dropped and active stays |
| `ObjectPool.SimpleLockStack.Len` | src/foundation/api/revel/utils/simplestack.go:92-94 | len is the number of stored objects |
| `ObjectPool.RoomKeepsObject` | src/foundation/api/revel/utils/simplestack.go:67-91 | a pool that is empty or below its size keeps the object, and the next Pop returns it; otherwise it is lost and nothing changes |
| `ObjectPool.EmptyPoolCreates` | src/foundation/api/revel/utils/simplestack.go:48-66 | only an empty pool hands out a new object, any other its last one |
| `ObjectPool.PopKeepsInv` | src/foundation/api/revel/utils/simplestack.go:48-66 | a Pop keeps ownership, conservation and bounds |
| `ObjectPool.PushKeepsInv` | src/foundation/api/revel/utils/simplestack.go:67-91 | a Push of a held object keeps ownership, conservation and bounds |
| `ObjectPool.PoolHistory` | src/foundation/api/revel/utils/simplestack.go:28-91 | after every legal history no object is held twice or both held and stored, len + active is startsize plus the objects made by Pop, len never exceeds max(1, startsize, maxsize), and capacity is the high-water mark (one less for a pool that started empty) |
| `RefreshWatcher.StepKeepsInv` | src/foundation/api/revel/watcher.go:218-265 | every step keeps: blocked followers equal messages in the channel plus messages still to send |
| `RefreshWatcher.RunKeepsInv` | src/foundation/api/revel/watcher.go:218-265 | over every interleaving of any number of calls, followers get exactly one message each and messages arrive in the order sent |
| `RefreshWatcher.FullChannelHasReader` | src/foundation/api/revel/watcher.go:247-251 | a leader blocked on the full channel of ten has a follower able to receive |
| `RefreshWatcher.StuckOnlyWhenEmpty` | src/foundation/api/revel/watcher.go:218-265 | when nothing but a new call can happen, nobody is left inside and every sent message has been received |
| `RefreshWatcher.StepDoesWork` | src/foundation/api/revel/watcher.go:218-265 | every step other than a new call does one unit of the work left, which stays non-negative; a leader brings three units and a follower two |
| `RefreshWatcher.RunPaysDemand` | src/foundation/api/revel/watcher.go:218-265 | over every run, new calls included, steps taken plus work left equal the work at the start plus four for each leader and three for each follower |
| `RefreshWatcher.RunEnds` | src/foundation/api/revel/watcher.go:218-265 | so no run takes more steps than that, and one that can only go on by a new call has taken exactly that many, with all calls returned |
| `RefreshOutcome.MessagesTellOutcome` | src/foundation/api/revel/watcher.go:245-264 | over every run, each message sent and each one received carries the error of the rebuild of its number exactly if that rebuild failed, and nil if it succeeded or panicked |
| `RefreshOutcome.FollowerIsToldItsOwn` | src/foundation/api/revel/watcher.go:218-264 | if every leader finds the channel empty, each follower is told how the rebuild ended that followed its own arrival |
| `RefreshOutcome.TenFit` | src/foundation/api/revel/watcher.go:47-56 | the channel never holds more than ten messages, and the leader waits only when it holds ten |
| `RefreshOutcome.ForcedUntilSuccess` | src/foundation/api/revel/watcher.go:224-264 | a rebuild is forced exactly if a call came in since the last one that succeeded |
| `RefreshWatcher.UndrainedLeaderGoesStale` | src/foundation/api/revel/watcher.go:218-254 | after any run from the start, once a leader starts on a channel that is not empty, some continuation hands a follower the result of another rebuild |
| `RefreshWatcher.StaleResultIffUndrained` | src/foundation/api/revel/watcher.go:218-254 | after any run with drained leaders, the next leader has a continuation that serves a follower wrongly, with all later leaders drained, if and only if it finds the channel not empty |
| `RefreshWatcher.StaleRun` | src/foundation/api/revel/watcher.go:218-254 | a run of nine steps from the initial state in which a follower of the second rebuild gets the result of the first |
| `RefreshWatcher.Watcher.constructor` | src/foundation/api/revel/watcher.go:47-56 | a new watcher is the initial state: rebuild forced, no timer, empty channel of ten |
| `RefreshWatcher.Watcher.Register` | src/foundation/api/revel/watcher.go:219-235 | the first critical section is the arrival step: lead without a timer, follow with one |
| `RefreshWatcher.Watcher.Record` | src/foundation/api/revel/watcher.go:256-264 | the outcome of the rebuild sets lastError and forceRefresh as the step does |
| `RefreshWatcher.Watcher.SendOne` | src/foundation/api/revel/watcher.go:247-250 | one round of the dispatch loop puts one message into the channel |
| `RefreshWatcher.Watcher.TakeResult` | src/foundation/api/revel/watcher.go:237-241 | a follower takes the oldest message |
| `RefreshWatcher.Watcher.Release` | src/foundation/api/revel/watcher.go:251-254 | the end of the dispatch clears count and timer and lets the next leader in |
| `TemplateCache.StepKeepsOrdered` | src/foundation/api/revel/template.go:107-132 | published versions never decrease and nothing published is taken back from the history |
| `TemplateCache.OldLoadPublishesNothing` | src/foundation/api/revel/template.go:430-440 | a load begun on an older version publishes nothing into a newer one |
| `TemplateCache.FirstEngineAnswers` | src/foundation/api/revel/template.go:412-428 | the first engine that knows the localized or the plain name answers, the localized one first, and no later engine is heard |
| `TemplateCache.CacheAnswersFirst` | src/foundation/api/revel/template.go:394-411 | the cached map is asked before all engines, the localized name first |
| `TemplateCache.RefreshTakesOver` | src/foundation/api/revel/template.go:107-132 | a Refresh publishes the engines and templates it was given, under a version above all before |
| `TemplateCache.LoadPublishes` | src/foundation/api/revel/template.go:430-456 | a load of the current version that found something not cached under the localized name makes it known under that name, and under the plain one if that was free; nothing else changes |
| `TemplateCache.FillsAreKept` | src/foundation/api/revel/template.go:441-455 | within a version, over any interleaving, the published key set only grows, so no fill is lost |
| `TemplateCache.GrownResolves` | src/foundation/api/revel/template.go:394-428 | a runtime that only grew by fills of the requests resolves each request as the fresh runtime does |
| `TemplateCache.FillGrows` | src/foundation/api/revel/template.go:430-455 | publishing what a stale snapshot resolved keeps that relation |
| `TemplateCache.RunKeepsAllGrown` | src/foundation/api/revel/template.go:394-456 | over every interleaving of refreshes and loads, every published runtime stays so related to its Refresh |
| `TemplateCache.SharedKeyDisturbs` | src/foundation/api/revel/template.go:445-448 | two requests that share a cache key disturb each other in some order for some engine |
| `TemplateCache.TransparentIffDisjoint` | src/foundation/api/revel/template.go:394-456 | the cache answers as uncached lookup does, for all engines, snapshots and interleavings, if and only if no two requests share a key |
| `TemplateCache.OneLanguageIsDisjoint` | src/foundation/api/revel/template.go:394-410 | one language, with no requested name ending in it, is such a set of requests |
| `TemplateCache.TemplateLoader.Refresh` | src/foundation/api/revel/template.go:107-132 | Refresh publishes a new version with the parsed templates, or nothing if an engine cannot be made |
| `TemplateCache.TemplateLoader.TemplateLoad` | src/foundation/api/revel/template.go:394-456 | the load returns what its snapshot resolves and publishes under the version check |
| `TemplateCache.FindInEngines` | src/foundation/api/revel/template.go:412-428 | the loop returns the first engine hit, the language name before the bare name |
| `SessionCookie.UnescapeEscape` | src/foundation/api/revel/util.go:93-94 | query unescaping (section 2.1 of RFC 3986, space as plus) inverts escaping for all bytes |
| `SessionCookie.FirstMatchMatches` | src/foundation/api/revel/util.go:30 | what the scanner finds is a match of the key/value pattern |
| `SessionCookie.FirstMatchIsLeftmost` | src/foundation/api/revel/util.go:30 | no match of the pattern starts earlier than the one the scanner finds, and none at the same place differs |
| `SessionCookie.ParseFramed` | src/foundation/api/revel/util.go:92-99 | scanning concatenated frames yields the pairs in order, though neighbouring frames put two NUL bytes between them |
| `SessionCookie.FramedRoundTrip` | src/foundation/api/revel/util.go:92-99 | collecting them gives back the map that was framed, for every order of its keys |
| `SessionCookie.Session.GetSessionJsonMap` | src/foundation/api/revel/session/session.go:205-219 | a missing or foreign object entry is replaced by an empty map, in place |
| `SessionCookie.Session.Serialize` | src/foundation/api/revel/session/session.go:222-255 | strings are copied, objects marshalled into one JSON entry, for any walk of the session map |
| `SessionCookie.Session.Load` | src/foundation/api/revel/session/session.go:258-272 | for any walk, strings are set and the object entry is decoded or left alone |
| `SessionCookie.LoadSerialized` | src/foundation/api/revel/session/session.go:222-272 | loading what was serialized restores every string and the decoded object map |
| `SessionCookie.Session.GetCookie` | src/foundation/api/revel/session_adapter_cookie.go:105-144 | the value is signature, hyphen and escaped frames in the order of the walk, with the panic over colons and NUL bytes; the timestamp written is the word session, or the Unix time of the end if the session has a lifetime |
| `SessionCookie.Session.DecodeCookie` | src/foundation/api/revel/session_adapter_cookie.go:71-102 | an unsigned cookie changes nothing, a signed one is loaded, an expired session is emptied, and it panics over a timestamp that is not a string |
| `SessionCookie.DecodePanicsIff` | src/foundation/api/revel/session/session.go:82-93 | it panics exactly if the session holds such a timestamp, the cookie is properly signed and brings none of its own |
| `SessionCookie.CookieRoundTrip` | src/foundation/api/revel/session_adapter_cookie.go:71-144 | a cookie decoded into an empty session restores the strings and the object map, unless a lifetime was set, the session was not one for the browser session, and its end has passed; then the session is empty |
| `SessionCookie.TimestampText` | src/foundation/api/revel/session_adapter_cookie.go:105-112 | the timestamp is the word session without a lifetime or for a session that had it, and otherwise the digits of the Unix time of its end |
| `SessionOutcome.RestoredSession` | src/foundation/api/revel/session/session.go:222-272 | what is restored, entry by entry: each string under its key, each object as its JSON, objects not unpacked since the last cookie, and nothing else |
| `SessionOutcome.SessionSurvivesUnlessExpired` | src/foundation/api/revel/session_adapter_cookie.go:71-144 | the session that comes back is empty if and only if it had a lifetime that is over, and otherwise restored entry by entry |
| `SessionOutcome.LoadedEntries` | src/foundation/api/revel/session/session.go:258-272 | Load sets what the cookie holds and leaves the rest; an object text that cannot be decoded is passed over |
| `SessionOutcome.LastMatchCounts` | src/foundation/api/revel/util.go:92-99 | of several matches of one key the last one counts |
| `SessionOutcome.ForgedCookieIgnored` | src/foundation/api/revel/session_adapter_cookie.go:71-84 | a cookie without a hyphen, without data or with another signature than that of its data changes nothing |
| `SessionOutcome.SignedCookieExpiry` | src/foundation/api/revel/session/session.go:82-93 | a signed cookie is dropped without a timestamp, kept with the word session, and otherwise dropped exactly once the time written in it is over |
| `SessionOutcome.EscapedIsSafe` | src/foundation/api/revel/session_adapter_cookie.go:131-144 | escaped data holds only letters, digits and -_.~%+ |
| `SessionOutcome.WireFormat` | src/foundation/api/revel/session_adapter_cookie.go:118-128 | a frame is NUL, key, colon, value, NUL, and these bytes are escaped as usual |
| `CameraPipeline.StepKeepsInv` | src/type3_AndroidCloud/anbox-master/android/camera/EmulatedFakeCamera2.cpp:739-816 | every atomic step of the three threads keeps: each request in one place, in order, counts exact |
| `CameraPipeline.RunKeepsInv` | src/type3_AndroidCloud/anbox-master/android/camera/EmulatedFakeCamera2.cpp:1212-1396 | the invariant holds over every interleaving |
| `CameraPipeline.CaptureNeverDropped` | src/type3_AndroidCloud/anbox-master/android/camera/EmulatedFakeCamera2.cpp:1160-1180 | the branch that reports a full in-flight queue is never taken for a capture |
| `CameraPipeline.CapturesFreedInOrder` | src/type3_AndroidCloud/anbox-master/android/camera/EmulatedFakeCamera2.cpp:1346-1396 | in runs of captures only, nothing is lost and requests are freed in the order they were dequeued |
| `CameraPipeline.DroppedIffReprocess` | src/type3_AndroidCloud/anbox-master/android/camera/EmulatedFakeCamera2.cpp:1026-1041 | a request can be lost to a full queue if and only if it is a reprocess request |
| `CameraPipeline.RankNeverFalls` | src/type3_AndroidCloud/anbox-master/android/camera/EmulatedFakeCamera2.cpp:909-939 | every hand-off publishes downstream before it clears upstream |
| `CameraPipeline.HandOverOutcome` | src/type3_AndroidCloud/anbox-master/android/camera/EmulatedFakeCamera2.cpp:1372-1390 | a request read out goes to the compressor exactly if that is free and a buffer with a positive stream id is a BLOB, and otherwise leaves the pipeline |
| `CameraPipeline.SetUpWaits` | src/type3_AndroidCloud/anbox-master/android/camera/EmulatedFakeCamera2.cpp:818-906 | a request set up waits for room if it is a capture, and for the compressor if it has a BLOB or is no capture |
| `CameraPipeline.FailedSetUpKeepsStreams` | src/type3_AndroidCloud/anbox-master/android/camera/EmulatedFakeCamera2.cpp:703-711 | a thread that stopped over a request keeps the streams set up so far in use |
| `CameraPipeline.FourthIsLost` | src/type3_AndroidCloud/anbox-master/android/camera/EmulatedFakeCamera2.cpp:1160-1180 | three requests can be queued, in order, and one more is lost |
| `PipelineDrain.CompressionEnds` | src/type3_AndroidCloud/anbox-master/android/camera/fake-pipeline2/JpegCompressor.cpp:245-258 | in every reachable state with a busy compressor, the end of the compression lets its request leave the pipeline, frees the compressor and leaves no stream in use by it |
| `PipelineDrain.EveryRunDrains` | src/type3_AndroidCloud/anbox-master/android/camera/EmulatedFakeCamera2.cpp:739-1396 | without new requests and failures every run of the threads, in any order, has a bounded number of steps, and one that cannot go on has emptied queue, readout and compressor and brought their counts to 0, unless the readout thread had halted |
| `PipelineDrain.DrainReached` | src/type3_AndroidCloud/anbox-master/android/camera/EmulatedFakeCamera2.cpp:1212-1396 | from every reachable state in which it has not halted such an end is reached; readout thread and compressor alone reach an empty queue, readout count 0 and a free compressor |
| `PipelineDrain.DrainedGaveBack` | src/type3_AndroidCloud/anbox-master/android/camera/EmulatedFakeCamera2.cpp:287-301 | the three counts are then 0, no stream is in use, and every request dequeued was given back or dropped |
| `JpegHandOver.JpegLostIff` | src/type3_AndroidCloud/anbox-master/android/camera/EmulatedFakeCamera2.cpp:1372-1390 | over all runs, a JPEG request being published can be lost to a busy compressor if and only if another one is then still queued, being read out or compressed, and the readout thread has not stopped |
| `JpegHandOver.SecondCaptureLost` | src/type3_AndroidCloud/anbox-master/android/camera/EmulatedFakeCamera2.cpp:796-803 | a run from the start in which the second of two JPEG captures is lost although the configure thread waited for a free compressor each time |
| `JpegHandOver.SafeForGood` | src/type3_AndroidCloud/anbox-master/android/camera/EmulatedFakeCamera2.cpp:1232-1250 | a request with no JPEG request before it stays safe whatever the threads do, requests published later included |
| `JpegHandOver.WorkOff` | src/type3_AndroidCloud/anbox-master/android/camera/EmulatedFakeCamera2.cpp:1212-1396 | with one before it, the readout thread alone can come to the point where the compressor refuses |
| `CameraPipeline.ScanCountsEveryRequest` | src/type3_AndroidCloud/anbox-master/android/camera/EmulatedFakeCamera2.cpp:287-301 | reading the three counts one after the other gives at least 1 for a request that is in the pipeline for the whole scan |
| `CameraPipeline.ScanSeesEveryStream` | src/type3_AndroidCloud/anbox-master/android/camera/EmulatedFakeCamera2.cpp:2685-2698 | the scan finds every stream recorded for a request that is in the pipeline for the whole scan |
| `CameraPipeline.ReleasedStreamIsUnused` | src/type3_AndroidCloud/anbox-master/android/camera/EmulatedFakeCamera2.cpp:510-540 | when the scan of releaseStream finds nothing, no request in the pipeline uses the stream |
| `InFlightRing.ReadoutThread.constructor` | src/type3_AndroidCloud/anbox-master/android/camera/EmulatedFakeCamera2.cpp:1107-1118 | the ring starts empty |
| `InFlightRing.ReadoutThread.IsReady` | src/type3_AndroidCloud/anbox-master/android/camera/EmulatedFakeCamera2.cpp:1156-1158 | the index test is true exactly if fewer than three requests are queued |
| `InFlightRing.ReadoutThread.SetNextOperation` | src/type3_AndroidCloud/anbox-master/android/camera/EmulatedFakeCamera2.cpp:1160-1180 | the ring refines the queue: append if there is room, drop otherwise |
| `InFlightRing.ReadoutThread.TakeNext` | src/type3_AndroidCloud/anbox-master/android/camera/EmulatedFakeCamera2.cpp:1232-1250 | the oldest entry becomes the current request, or the thread goes inactive |
| `InFlightRing.ReadoutThread.IsStreamInUse` | src/type3_AndroidCloud/anbox-master/android/camera/EmulatedFakeCamera2.cpp:1182-1204 | walking the ring from head to tail finds the stream exactly if a queued or current request mentions it |
| `InFlightRing.ReadoutThread.GetInProgressCount` | src/type3_AndroidCloud/anbox-master/android/camera/EmulatedFakeCamera2.cpp:1206-1210 | the count returned is that of the queue model |
| `InFlightRing.WindowPushed` | src/type3_AndroidCloud/anbox-master/android/camera/EmulatedFakeCamera2.cpp:1166-1175 | writing at the tail appends to the window; slots outside it play no part |
| `InFlightRing.WindowTaken` | src/type3_AndroidCloud/anbox-master/android/camera/EmulatedFakeCamera2.cpp:1240-1249 | clearing the head slot and moving on removes the oldest entry, across the wrap |
| `ControlThread.Draw` | src/type3_AndroidCloud/anbox-master/android/camera/EmulatedFakeCamera2.cpp:1832-1833 | a drawn duration lies within its bounds |
| `ControlThread.RequestKeepsInv` | src/type3_AndroidCloud/anbox-master/android/camera/EmulatedFakeCamera2.cpp:1593-1683 | a request at any moment keeps state, mode and scan in agreement |
| `ControlThread.FocusKeepsInv` | src/type3_AndroidCloud/anbox-master/android/camera/EmulatedFakeCamera2.cpp:1782-1790 | the focus part of the cycle keeps them |
| `ControlThread.ResetKeepsInv` | src/type3_AndroidCloud/anbox-master/android/camera/EmulatedFakeCamera2.cpp:1774-1780 | the reset keeps them, and drops the wish to lock |
| `ControlThread.StepKeepsInv` | src/type3_AndroidCloud/anbox-master/android/camera/EmulatedFakeCamera2.cpp:1593-1816 | every step of cycle, requests and triggers keeps them |
| `ControlThread.RunKeepsInv` | src/type3_AndroidCloud/anbox-master/android/camera/EmulatedFakeCamera2.cpp:1593-1952 | over every interleaving the AF state fits the mode last taken up: none but INACTIVE in OFF and EDOF, no passive state in AUTO and MACRO, no active scan in the continuous modes |
| `ControlThread.NothingUnexpected` | src/type3_AndroidCloud/anbox-master/android/camera/EmulatedFakeCamera2.cpp:1818-1952 | the branches that log an unexpected AF state or mode are never reached |
| `ControlThread.PassiveScanAlwaysStarts` | src/type3_AndroidCloud/anbox-master/android/camera/EmulatedFakeCamera2.cpp:1892-1910 | the continuous start rate evaluates to 2e16, so a passive scan starts at once instead of once in 5 seconds as the comment has it |
| `ControlThread.ScanRunsItsDuration` | src/type3_AndroidCloud/anbox-master/android/camera/EmulatedFakeCamera2.cpp:1912-1951 | a scan that ends by itself has slept exactly the duration it drew, between 500 and 900 ms |
| `ControlThread.ScanEndsWhenSlept` | src/type3_AndroidCloud/anbox-master/android/camera/EmulatedFakeCamera2.cpp:1919-1945 | a scan that has slept its duration ends at the next look |
| `ControlThread.ScanIsBounded` | src/type3_AndroidCloud/anbox-master/android/camera/EmulatedFakeCamera2.cpp:1799-1813 | while one scan lasts, each sleep shortens what is left of it, so it has at most that many cycles |
| `ControlOutcome.FocusTable` | src/type3_AndroidCloud/anbox-master/android/camera/EmulatedFakeCamera2.cpp:1782-1951 | over every run, what the focus part of a cycle leads to, by mode, state, trigger and random numbers: a trigger in AUTO or MACRO starts a scan of 500 to 900 ms from every other state, which ends locked, in focus for a draw below 0.9; the two continuous modes lock by their own tables |
| `ControlOutcome.ResetTable` | src/type3_AndroidCloud/anbox-master/android/camera/EmulatedFakeCamera2.cpp:1774-1780 | a cancel or a change of mode takes every state back to inactive |
| `ControlOutcome.PendingTold` | src/type3_AndroidCloud/anbox-master/android/camera/EmulatedFakeCamera2.cpp:1593-1710 | over every run, the mode, trigger, cancel, mode change and precapture noted for the next cycle are told by the calls that came in since the last one |
| `ControlOutcome.TriggerStartsScan` | src/type3_AndroidCloud/anbox-master/android/camera/EmulatedFakeCamera2.cpp:1746-1836 | a trigger that came in before a cycle, in AUTO or MACRO, is a fresh scan after its focus part, unless one was under way |
| `ControlOutcome.NoTriggerNoScan` | src/type3_AndroidCloud/anbox-master/android/camera/EmulatedFakeCamera2.cpp:1746-1836 | without a trigger, cancel or change of mode a cycle in AUTO or MACRO leaves the state as it is |
| `ControlOutcome.ExposureTable` | src/type3_AndroidCloud/anbox-master/android/camera/EmulatedFakeCamera2.cpp:1792-2045 | over every run, what the exposure part leads to: precapture, lock, start of a scan, its end and the jitter of the exposure time, with their durations and rates |
| `ControlOutcome.AeTold` | src/type3_AndroidCloud/anbox-master/android/camera/EmulatedFakeCamera2.cpp:1593-1683 | the AE mode and lock are those asked for last |
| `ControlOutcome.CycleKeepsAe` | src/type3_AndroidCloud/anbox-master/android/camera/EmulatedFakeCamera2.cpp:1764-1771 | the exposure part works on mode, lock, state and trigger of the beginning of its cycle |
| `ControlOutcome.RequestTable` | src/type3_AndroidCloud/anbox-master/android/camera/EmulatedFakeCamera2.cpp:1593-1710 | a request that unlocks or switches control off makes AE inactive at once and leaves all other states to the cycle |
| `ControlOutcome.SleepTable` | src/type3_AndroidCloud/anbox-master/android/camera/EmulatedFakeCamera2.cpp:1799-1813 | a cycle sleeps 100 ms or until the first scan under way is over, and each scan loses what was slept |
| `ControlLoop.Controller.constructor` | src/type3_AndroidCloud/anbox-master/android/camera/EmulatedFakeCamera2.cpp:1550-1581 | the thread starts in AUTO with everything inactive |
| `ControlLoop.Controller.ProcessRequest` | src/type3_AndroidCloud/anbox-master/android/camera/EmulatedFakeCamera2.cpp:1593-1683 | a request is the step of that name on the fields under the input mutex |
| `ControlLoop.Controller.TriggerAction` | src/type3_AndroidCloud/anbox-master/android/camera/EmulatedFakeCamera2.cpp:1685-1710 | a trigger is the step of that name |
| `ControlLoop.Controller.TakeInputs` | src/type3_AndroidCloud/anbox-master/android/camera/EmulatedFakeCamera2.cpp:1732-1772 | the first critical section takes trigger, cancel and mode change once |
| `ControlLoop.Controller.ResetIfAsked` | src/type3_AndroidCloud/anbox-master/android/camera/EmulatedFakeCamera2.cpp:1774-1780 | cancel or mode change reset the scan |
| `ControlLoop.Controller.ProcessAfTrigger` | src/type3_AndroidCloud/anbox-master/android/camera/EmulatedFakeCamera2.cpp:1818-1890 | the switches over mode and state give the state after the trigger |
| `ControlLoop.Controller.MaybeStartAfScan` | src/type3_AndroidCloud/anbox-master/android/camera/EmulatedFakeCamera2.cpp:1892-1910 | a passive scan starts in a continuous mode from INACTIVE or PASSIVE_FOCUSED |
| `ControlLoop.Controller.UpdateAfScan` | src/type3_AndroidCloud/anbox-master/android/camera/EmulatedFakeCamera2.cpp:1912-1951 | a scan that is over yields its outcome, one that goes on bounds the sleep |
| `ControlLoop.Controller.RunFocusPart` | src/type3_AndroidCloud/anbox-master/android/camera/EmulatedFakeCamera2.cpp:1782-1790 | trigger, start, update and report make up the focus step |
| `ControlLoop.Controller.UpdateAeScan` | src/type3_AndroidCloud/anbox-master/android/camera/EmulatedFakeCamera2.cpp:2016-2046 | lock, end of scan and exposure jitter of the AE scan, the exposure time never below 1 ms |
| `ControlLoop.Controller.RunExposurePart` | src/type3_AndroidCloud/anbox-master/android/camera/EmulatedFakeCamera2.cpp:1792-1798 | the AE half of the cycle is the exposure step |
| `ControlLoop.Controller.Wake` | src/type3_AndroidCloud/anbox-master/android/camera/EmulatedFakeCamera2.cpp:1807-1813 | after the sleep both durations go down by what was slept |
| `ControlLoop.Controller.ThreadLoop` | src/type3_AndroidCloud/anbox-master/android/camera/EmulatedFakeCamera2.cpp:1731-1816 | a cycle without interference is five steps of the machine and keeps its invariant |
| `StreamTable.CounterStep` | src/type3_AndroidCloud/anbox-master/android/camera/EmulatedFakeCamera2.cpp:414-439 | what each operation does to a category counter, in 32 bits |
| `StreamTable.LiveStep` | src/type3_AndroidCloud/anbox-master/android/camera/EmulatedFakeCamera2.cpp:440-540 | what each operation does to the live streams of a category, and how far that departs from the counter |
| `StreamTable.Ledger` | src/type3_AndroidCloud/anbox-master/android/camera/EmulatedFakeCamera2.cpp:340-608 | over any run a counter is the live streams of its category plus the drift, modulo 2^32 |
| `StreamTable.StaysExactIff` | src/type3_AndroidCloud/anbox-master/android/camera/EmulatedFakeCamera2.cpp:462-508 | a step leaves right counters right if and only if it neither registers a format of another category nor hands out the id of a live stream |
| `StreamTable.IdsCount` | src/type3_AndroidCloud/anbox-master/android/camera/EmulatedFakeCamera2.cpp:448-458 | the next id counts the allocations, and live ids lie below it until it wraps |
| `StreamTable.SameIdIff` | src/type3_AndroidCloud/anbox-master/android/camera/EmulatedFakeCamera2.cpp:448-458 | two allocations hand out the same id exactly if a multiple of 2^32 allocations lies between them |
| `StreamTable.TidyCountersAreExact` | src/type3_AndroidCloud/anbox-master/android/camera/EmulatedFakeCamera2.cpp:340-540 | in runs whose registrations keep the category each counter is the number of live streams, at most 1 raw, 1 JPEG, 3 processed |
| `StreamTable.TidyReleaseDoesNotUnderflow` | src/type3_AndroidCloud/anbox-master/android/camera/EmulatedFakeCamera2.cpp:525-535 | in such runs no release takes a counter below zero |
| `StreamTable.RunKeepsBounded` | src/type3_AndroidCloud/anbox-master/android/camera/EmulatedFakeCamera2.cpp:340-540 | over every run, read as signed numbers, no counter is above its limit and together they count at least the live streams |
| `StreamTable.UnderflowIsForever` | src/type3_AndroidCloud/anbox-master/android/camera/EmulatedFakeCamera2.cpp:340-540 | a counter that has gone below zero stays there however the run goes on: no stream of its category is ever allocated again |
| `StreamTable.ChangedCategoryLocksOut` | src/type3_AndroidCloud/anbox-master/android/camera/EmulatedFakeCamera2.cpp:462-540 | an IMPLEMENTATION_DEFINED stream registered as JPEG and released: in every continuation no JPEG stream can be allocated, though none is live |
| `StreamTable.ReprocessCountIsExact` | src/type3_AndroidCloud/anbox-master/android/camera/EmulatedFakeCamera2.cpp:542-608 | the reprocess counter is the number of live reprocess streams, at most 2, until ids wrap |
| `StreamTable.SizeFoundIff` | src/type3_AndroidCloud/anbox-master/android/camera/EmulatedFakeCamera2.cpp:401-412 | the size search finds every listed size, and another one exactly if the words behind the table spell it |
| `StreamTable.AlwaysFoundIffListed` | src/type3_AndroidCloud/anbox-master/android/camera/EmulatedFakeCamera2.cpp:401-412 | whatever lies behind the table, a size is found if and only if it is listed; any other size is found for some words behind it |
| `StreamTable.OfferedSizesListed` | src/type3_AndroidCloud/anbox-master/android/camera/EmulatedFakeCamera2.cpp:52-83 | the sizes listed for each format and side of the camera |
| `StreamTable.AllocateSucceedsIff` | src/type3_AndroidCloud/anbox-master/android/camera/EmulatedFakeCamera2.cpp:350-468 | an allocation succeeds exactly for an offered format, in a size the search finds, while there are less than 1 raw, 1 JPEG or 3 other streams counted; the stream and id it adds, and which error it returns otherwise |
| `StreamTable.RoomIsLiveStreams` | src/type3_AndroidCloud/anbox-master/android/camera/EmulatedFakeCamera2.cpp:414-440 | with tidy registrations that means less than 1, 1 or 3 live streams of the category |
| `StreamTable.OthersSucceedIff` | src/type3_AndroidCloud/anbox-master/android/camera/EmulatedFakeCamera2.cpp:470-640 | when the other operations succeed and what they change, at most two reprocess streams being counted |
| `StreamTable.StreamAllocator.AllocateStream` | src/type3_AndroidCloud/anbox-master/android/camera/EmulatedFakeCamera2.cpp:340-460 | all error branches, the category limits, the new stream and its id |
| `StreamTable.StreamAllocator.RegisterStreamBuffers` | src/type3_AndroidCloud/anbox-master/android/camera/EmulatedFakeCamera2.cpp:462-508 | all error branches; the final format replaces the stream format |
| `StreamTable.StreamAllocator.ReleaseStream` | src/type3_AndroidCloud/anbox-master/android/camera/EmulatedFakeCamera2.cpp:510-540 | unknown or used streams stay; otherwise the counter of the current format goes down |
| `StreamTable.StreamAllocator.AllocateReprocessStreamFromStream` | src/type3_AndroidCloud/anbox-master/android/camera/EmulatedFakeCamera2.cpp:542-587 | the reprocess stream copies its base stream under the limit of two |
| `StreamTable.StreamAllocator.ReleaseReprocessStream` | src/type3_AndroidCloud/anbox-master/android/camera/EmulatedFakeCamera2.cpp:589-608 | a known reprocess stream is removed and counted down |
| `StreamTable.FormatKnown` | src/type3_AndroidCloud/anbox-master/android/camera/EmulatedFakeCamera2.cpp:361-372 | the loop over the available formats finds exactly those |
| `StreamTable.FindSize` | src/type3_AndroidCloud/anbox-master/android/camera/EmulatedFakeCamera2.cpp:401-412 | the loop over resolutions, with the bound the code has |
| `Yuv.Clamp` | src/type3_AndroidCloud/anbox-master/android/camera/Converters.h:130-138 | clipping keeps 0..255 and sends the rest to the nearer end |
| `Yuv.LumaCastKeepsValue` | src/type3_AndroidCloud/anbox-master/android/camera/Converters.h:147 | no RGB colour makes the luma cast wrap; luma lies in 16..235 |
| `Yuv.ChromaUCastKeepsValue` | src/type3_AndroidCloud/anbox-master/android/camera/Converters.h:148 | no RGB colour makes the U cast wrap; it lies in 16..240 |
| `Yuv.ChromaVCastKeepsValue` | src/type3_AndroidCloud/anbox-master/android/camera/Converters.h:149 | no RGB colour makes the V cast wrap; it lies in 16..240 |
| `Yuv.RedComesBack` | src/type3_AndroidCloud/anbox-master/android/camera/Converters.h:147-201 | to YUV and back moves red by at most 2, for all colours |
| `Yuv.GreenComesBack` | src/type3_AndroidCloud/anbox-master/android/camera/Converters.h:147-201 | to YUV and back moves green by at most 2, for all colours |
| `Yuv.BlueComesBack` | src/type3_AndroidCloud/anbox-master/android/camera/Converters.h:147-201 | to YUV and back moves blue by at most 3, for all colours |
| `Yuv.FormsAgree` | src/type3_AndroidCloud/anbox-master/android/camera/Converters.h:204-227 | RGB565 and RGB32 of the same sample agree on the leading bits of each channel |
| `Yuv.Unpack` | src/type3_AndroidCloud/anbox-master/android/camera/Converters.h:30-128 | each channel is read back from its bits of a packed pixel |
| `Yuv.ReferenceColours` | src/type3_AndroidCloud/anbox-master/android/camera/Converters.h:141-201 | reference conversions on which any other coefficient, offset or rounding would show |
| `FrameLayout.LastPair` | src/type3_AndroidCloud/anbox-master/android/camera/Converters.cpp:58-86 | the last pair of the walk uses the last sample of any pair, number (height+1)/2 * pairs - 1, for all sizes |
| `FrameLayout.StaysInPlanesIffEven` | src/type3_AndroidCloud/anbox-master/android/camera/Converters.cpp:58-86 | all luma bytes and chroma samples that the pairs of the walk read lie in their planes if and only if width and height are even |
| `FrameLayout.StaysInFrameIff` | src/type3_AndroidCloud/anbox-master/android/camera/EmulatedFakeCameraDevice.cpp:265-298 | all bytes the drawing writes lie in the frame if and only if width and height are even, or the planes are separate, the width is odd and there are two rows |
| `FrameLayout.SamplesInFrame` | src/type3_AndroidCloud/anbox-master/android/camera/EmulatedCameraDevice.cpp:195-230 | in all four layouts every chroma sample lies behind the luma and inside width*height*12/8 bytes |
| `FrameLayout.LayoutTable` | src/type3_AndroidCloud/anbox-master/android/camera/EmulatedFakeCameraDevice.cpp:120-160 | where the k-th U and V sample of each layout lies |
| `FrameLayout.PlanesApart` | src/type3_AndroidCloud/anbox-master/android/camera/EmulatedFakeCameraDevice.cpp:120-160 | no U sample is a V sample, in the planar and in the interleaved layouts |
| `Converters.Convert` | src/type3_AndroidCloud/anbox-master/android/camera/Converters.cpp:58-86 | for all sizes the walk with moving pointers, for either chroma step, yields for each pair of pixels the conversion of its luma and of sample (y/2)*pairs + x/2, and writes nothing else |
| `Converters.ConvertRow` | src/type3_AndroidCloud/anbox-master/android/camera/Converters.cpp:69-77 | one row of it; the pointers end up behind the row |
| `Converters.PairsMakePicture` | src/type3_AndroidCloud/anbox-master/android/camera/Converters.cpp:58-86 | the pairs are the indexed picture: pixel (x, y) from luma y*stride + x and the chroma of its block, the stride being the width if that is even |
| `Converters.EvenFrameFits` | src/type3_AndroidCloud/anbox-master/android/camera/Converters.cpp:88-171 | for even sizes the frame holds all that is read |
| `Converters.Yv12ToRgb32` | src/type3_AndroidCloud/anbox-master/android/camera/Converters.cpp:97-104 | the output shows the frame read as YVU420 |
| `Converters.Yu12ToRgb32` | src/type3_AndroidCloud/anbox-master/android/camera/Converters.cpp:106-113 | the output shows the frame read as YUV420 |
| `Converters.Nv12ToRgb32` | src/type3_AndroidCloud/anbox-master/android/camera/Converters.cpp:149-155 | the output shows the frame read as NV12 |
| `Converters.Nv21ToRgb32` | src/type3_AndroidCloud/anbox-master/android/camera/Converters.cpp:165-171 | the output shows the frame read as NV21 |
| `Converters.Nv12ToRgb565` | src/type3_AndroidCloud/anbox-master/android/camera/Converters.cpp:141-147 | the output shows the frame read as NV12, in RGB565 |
| `Converters.Nv21ToRgb565` | src/type3_AndroidCloud/anbox-master/android/camera/Converters.cpp:157-163 | the output shows the frame read as NV21, in RGB565 |
| `Converters.Yv12ToRgb565` | src/type3_AndroidCloud/anbox-master/android/camera/Converters.cpp:88-95 | the output shows the frame read as YUV420, for this entry point takes the U plane first |
| `FrameWriting.PlanesAreApart` | src/type3_AndroidCloud/anbox-master/android/camera/EmulatedFakeCameraDevice.cpp:120-160 | luma, U and V bytes of an even frame are pairwise at different places |
| `FrameWriting.PutEffect` | src/type3_AndroidCloud/anbox-master/android/camera/EmulatedFakeCameraDevice.cpp:273-280 | a drawing step changes two luma bytes and one sample of each chroma plane, nothing else |
| `FrameWriting.WritePair` | src/type3_AndroidCloud/anbox-master/android/camera/EmulatedFakeCameraDevice.cpp:273-280 | the writes of the loop body amount to that step |
| `Checkerboard.ColumnStep` | src/type3_AndroidCloud/anbox-master/android/camera/EmulatedFakeCameraDevice.cpp:281-285 | the count of pixels in a column, cut off at the left by checkX, decides the column as the closed form does |
| `Checkerboard.BandStep` | src/type3_AndroidCloud/anbox-master/android/camera/EmulatedFakeCameraDevice.cpp:294-297 | the post-incremented count of rows makes bands of size + 1 rows, as the closed form says |
| `Checkerboard.PatternSizes` | src/type3_AndroidCloud/anbox-master/android/camera/EmulatedFakeCameraDevice.cpp:281-297 | a colour lasts for exactly size + 1 rows and for size pixels rounded up to whole pairs |
| `Checkerboard.FieldsAreSquareIffOdd` | src/type3_AndroidCloud/anbox-master/android/camera/EmulatedFakeCameraDevice.cpp:281-297 | so the fields are square if and only if a tenth of the width is odd, and else one row higher than wide |
| `Checkerboard.StartsBlack` | src/type3_AndroidCloud/anbox-master/android/camera/EmulatedFakeCameraDevice.cpp:253-257 | the corner is black as long as neither counter has reached the size |
| `Checkerboard.MovedBySize` | src/type3_AndroidCloud/anbox-master/android/camera/EmulatedFakeCameraDevice.cpp:253-261 | when either counter has moved on by the size, black and white have changed places everywhere |
| `Checkerboard.DrawRow` | src/type3_AndroidCloud/anbox-master/android/camera/EmulatedFakeCameraDevice.cpp:270-286 | one row, with its colour changes, is drawn at its place in all three planes |
| `Checkerboard.DrawBoard` | src/type3_AndroidCloud/anbox-master/android/camera/EmulatedFakeCameraDevice.cpp:241-299 | luma shows the closed-form checkerboard at every pixel and chroma that of the lower row of each block; all writes lie in their planes |
| `Square.DrawSquare` | src/type3_AndroidCloud/anbox-master/android/camera/EmulatedFakeCameraDevice.cpp:313-340 | exactly the pixels and chroma samples of the clipped square change, for odd starts too |
| `Square.DrawRows` | src/type3_AndroidCloud/anbox-master/android/camera/EmulatedFakeCameraDevice.cpp:325-339 | row by row, chroma rows being shared by two rows of the square |
| `FakeCameraDevice.SquareIsInside` | src/type3_AndroidCloud/anbox-master/android/camera/EmulatedFakeCameraDevice.cpp:302-310 | for any counter the square ends inside the row, its last odd pixel included, and is never cut off at the right |
| `FakeCameraDevice.SwingTable` | src/type3_AndroidCloud/anbox-master/android/camera/EmulatedFakeCameraDevice.cpp:302-307 | from frame to frame a coordinate moves by one up to 128, and back to 0 from 126 on, 256 frames a swing |
| `FakeCameraDevice.SquareTable` | src/type3_AndroidCloud/anbox-master/android/camera/EmulatedFakeCameraDevice.cpp:302-310 | the square is a quarter of the width, swings with three and five times the counter, and is cut off only below |
| `FakeCameraDevice.SceneTable` | src/type3_AndroidCloud/anbox-master/android/camera/EmulatedFakeCameraDevice.cpp:241-311 | fields a tenth of the width, only white and the square balanced, the square green and red for 256 frames each |
| `FakeCameraDevice.SceneColours` | src/type3_AndroidCloud/anbox-master/android/camera/EmulatedFakeCameraDevice.cpp:30-53 | the four colours with half their luma |
| `FakeCameraDevice.SceneFits` | src/type3_AndroidCloud/anbox-master/android/camera/EmulatedFakeCameraDevice.cpp:241-340 | so for every even size and all counters board and square lie within their planes |
| `FakeCameraDevice.DrawScene` | src/type3_AndroidCloud/anbox-master/android/camera/EmulatedFakeCameraDevice.cpp:241-310 | every pixel and every block shows the board, overlaid by the square |
| `FakeCameraDevice.PreviewShowsScene` | src/type3_AndroidCloud/anbox-master/android/camera/EmulatedCameraDevice.cpp:158-189 | drawing and conversion together: the preview pixel is the scene colour, whatever the layout between |
| `FakeCameraDevice.Device.CommonStartDevice` | src/type3_AndroidCloud/anbox-master/android/camera/EmulatedCameraDevice.cpp:195-230 | a known format gets a frame of width*height*12/8 bytes, another is refused |
| `FakeCameraDevice.Device.StartDevice` | src/type3_AndroidCloud/anbox-master/android/camera/EmulatedFakeCameraDevice.cpp:104-169 | only a connected device starts; the planes are where the converters look for them, except for YVU420 |
| `FakeCameraDevice.Device.StopDevice` | src/type3_AndroidCloud/anbox-master/android/camera/EmulatedFakeCameraDevice.cpp:171-188 | a started device gives up its frame and is connected again |
| `FakeCameraDevice.Device.Initialize` | src/type3_AndroidCloud/anbox-master/android/camera/EmulatedCameraDevice.cpp:65-83 | only a constructed device becomes initialized |
| `FakeCameraDevice.Device.ConnectDevice` | src/type3_AndroidCloud/anbox-master/android/camera/EmulatedFakeCameraDevice.cpp:64-82 | only an initialized device becomes connected |
| `FakeCameraDevice.Device.DisconnectDevice` | src/type3_AndroidCloud/anbox-master/android/camera/EmulatedFakeCameraDevice.cpp:84-102 | a started device cannot be disconnected |
| `FakeCameraDevice.Device.DrawCheckerboard` | src/type3_AndroidCloud/anbox-master/android/camera/EmulatedFakeCameraDevice.cpp:241-311 | for even sizes the frame shows the scene of the counters, which then move on by 3, 1 and 1; a frame narrower than ten pixels stays as it is, whatever its size and layout |
| `FakeCameraDevice.Device.GetCurrentPreviewFrame` | src/type3_AndroidCloud/anbox-master/android/camera/EmulatedCameraDevice.cpp:158-189 | each layout goes to its converter; a device without a frame is refused |

## Left out

- Binder: JSON bodies, uploads and files, `[]byte`, floats (printed with `%f`), `time.Time`, pointers, embedded fields, map keys that are not scalars and named string types; nil and empty slices and maps are identified.
- Binder.Bind: a result of None stands for a run-time panic, which only a parameter equal to the name of a map or a slice longer than the largest int can cause.
- ObjectPool: the Destroy hook of pushed values, `String`, and a nil creator; the mutex makes every method one step.
- ObjectPool.SimpleLockStack.constructor: the creator's results are passed in as a sequence.
- RefreshWatcher: fsnotify, directory walking, the Notify loop over listeners and its serial mode; time appears only as the step in which the timer expires.
- RefreshWatcher.Watcher.Register: the channel is a sequence and blocking is a precondition of the method.
- TemplateCache: parsing, walking the view directories, compile errors and engine events; an engine is a fixed lookup for one version.
- SessionCookie: the internals of HMAC and of encoding/json, which are a signature function without hyphens and a pair of functions, the second inverting the first on the map at hand; the other cookie attributes; the 4 kB warning is only a log line.
- SessionCookie.Session.Serialize: no entry of a named string type, on which the assertion `value.(string)` panics.
- CameraPipeline: deadlocks (releaseStream and setupCapture take two locks in opposite order), errors of the buffer queue, the sensor, the failure to start the compressor thread, and stream ids beyond the byte that setupCapture stores.
- CameraPipeline.ReleasedStreamIsUnused: the mutex held during the scan appears as the absence of set-up steps, and both thread locks must be free where they are read.
- ControlThread: white balance, scene and effect modes, trigger ids and notifications; the scan durations and the wish to lock, which the code leaves unset at the start, begin as 0 and false.
- ControlThread.StepKeepsInv: whether AE reacts to an unlock is not claimed, since a request and the cycle can overwrite each other's state.
- ControlThread.Draw: `rand() / RAND_MAX` is a real between 0 and 1, rounded as the conversion does; float rounding is not modelled.
- StreamTable: reopening a camera with streams left over; whether a stream is in use is an argument, and so are the words behind a size table.
- Converters: `int` overflow of width * height; the alpha byte, which the code leaves unset; big-endian packing.
- Converters.Convert: one index serves the luma and the output pointer, which advance together; a walk over a frame of width 0 does nothing and is not part of it.
- Converters.Yv12ToRgb32: the memory that the walk reads and writes must exist, and likewise for the other entry points; `Converters.EvenFrameFits` shows that a frame of even size has it, and by `FrameLayout.StaysInPlanesIffEven` the walk leaves the planes for all other sizes.
- FakeCameraDevice: the worker thread, frame rotation for debugging, white balance and exposure arithmetic, which are functions given as arguments.
- FakeCameraDevice.Device.DrawCheckerboard: from a width of ten on, even sizes are required: by `FrameLayout.StaysInFrameIff` the drawing of all others writes outside the frame, but for a planar frame of odd width with two rows, where it writes from one plane into the next and no picture is promised. The YVU420 layout is excluded from there on, since startDevice computes its U plane from an unset pointer. `int` overflow of the counters is not modelled.
- In-memory, memcached and redis caches, routing, filters, loggers, server adapters, the audio HAL, QEMU clients, metadata tables and build scripts: wrappers, I/O or constant tables.
