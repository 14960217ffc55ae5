# Verified model of the radio scanner

The system records radio calls on a server, stores them, and plays them to listeners in a browser. This
project models the parts whose behaviour spans several functions or a whole run, and proves what they promise.
`dafny verify dfyconfig.toml` checks everything.

**The listener's player** (`ScannerModel`, `ScannerInvariant`, `ScannerTheorems`, `LiveListening`, `SelectionEdits`,
`ScannerService`).
`ScannerModel` gives the state of the player (deck, queue, selection, archive listing, messages sent) and one function
for each operation and each callback; decodes, alerts, ended sources, timers and replies arrive in any order as
steps. `ScannerInvariant` proves the invariant for every step. `ScannerTheorems` proves, over all runs, that at most
one source sounds and stale decodes never do, that holds give the listener's own selection back, that cleaning the
queue keeps exactly what is selected, and that what is asked for is heard. `LiveListening` proves that live calls are
heard in the order they came in, whatever order callbacks come in, and what goes on to what. `SelectionEdits` says what
each edit of the selection means, talkgroup by talkgroup. `ScannerService` is the class itself: each method
moves its state where the function says, keeps the object valid, and starts no source unless it is the end of an alert.

**Archive playback** (`Playback`, `PlaybackTrail`, `Walk`). The player in a closed loop with the server's paging, from the
listener's click on. `PlaybackTrail` describes in numbers alone which call follows which on any listing the player can
have on screen, one page or many collected, of any length and in either order, and proves when every later call is
visited and when the calls come in order. `Playback` proves that the player does exactly that.

**Delayed release** (`Delayer`). The pending table, the timers and the archive of accepted calls, through ingests, passing
time, timer firings and restarts with recovery.

**Stored calls** (`CallArchive`). Duplicate detection and pruning, the separation they keep, and what they store and drop.

**Taking in calls** (`IngestModel`, `IngestDistinct`, `IngestExtends`, `IngestTwice`, `IngestReload`, `Controller`,
`Blacklists`). How a call finds its system and talkgroup and what auto-population adds: as functions, as the class that
does it step by step, and as theorems about references, about what may change, about what a call is stored under, and
about receiving a call twice, also with the configuration saved and read back in between.

**Activity** (`ActivityWindow`, `Activity`, `ActivityReport`, `ActivitySystems`, `Counting`, `Sorting`). The window and
its buckets, the fold over grouped rows in any order, the ranking, the equality with direct counting of the archive for
every viewer, and the reports for single systems as parts of the whole.

**Scopes and selection** (`Access`, `Scopes`, `Selection`, `Decimal`). What an access opens, the configuration cut down to
it, the group and tag indexes, and the agreement of the player's selection with the server's two uses of it.

**Tables and codecs** (`TalkgroupStore`, `AuthLimiter`, `Afs`). Writing and reading back talkgroups; the failure limiter
against the history it forgets; agency-fleet-subfleet notation.

Time is a whole number of milliseconds, except for an incoming call's nanoseconds in `CallArchive`. SQL statements appear
as what they return or do to tables; a grouped query is any sequence of rows that groups the matching calls. Maps are
visited in arbitrary order, and sorting leaves ties in arbitrary order. Each locked method is one step.

Some properties fail for part of the inputs. They are stated as an equivalence with the condition that decides them:

- `Playback.PlaybackTraversesArchive`: later calls are passed over when a newest-first listing does not start on a whole
  page, or when pages longer than the server's 500 rows are turned; and a whole archive of more than 500 calls, collected
  oldest first, is started over after its last call, because asking for it again brings its first page only.
- `ScannerTheorems.CleanQueueConserves`: cleaning that ends archive playback empties the queue.
- `Delayer.EmitTerminatesExactly`: a call without a delay that is dated ahead goes to and fro between two functions until
  the clock has come to it.
- `ActivityWindow.BucketsTile`: a window that starts before the epoch off a bucket boundary.
- `IngestDistinct.RefsStayDistinct` and `IngestTwice.IngestTwiceIsOnce`: an identifier that does not resolve, next to a
  reference that does.
- `IngestReload.IngestAfterReload`: a talkgroup labelled with its own reference is filed again in the groups the call
  names, when they came back in another order or with others.
- `Scopes.GetScopedSystems`: an access without any scope is shown everything, though the test for a single call refuses it.

`TalkgroupStore.StaleGroupLingers` gives a concrete input for the memberships that linger.

## Model

| member | source | states |
|---|---|---|
| ScannerTheorems.OneLiveSource | client/src/app/components/ember-scanner/ember-scanner.service.ts:564-647 | over every run of operations and callbacks at most one source sounds; it plays the current call under the current generation; started generations strictly increase |
| ScannerTheorems.OnlyFreshDecodesStart | client/src/app/components/ember-scanner/ember-scanner.service.ts:608-628 | a step starts a source only as the alert callback of the current generation, for the current call, when nothing sounds |
| ScannerTheorems.GenerationNeverFalls | client/src/app/components/ember-scanner/ember-scanner.service.ts:745-766 | no step lowers the decode generation, and a destroyed player stays destroyed |
| ScannerTheorems.StaleNeverSounds | client/src/app/components/ember-scanner/ember-scanner.service.ts:600-628 | from any moment on the sound log only grows, and never by a generation that was over by then |
| ScannerTheorems.StopSilencesDecodes | client/src/app/components/ember-scanner/ember-scanner.service.ts:745-766 | after a stop none of the decodes then in flight is ever heard, whatever follows |
| ScannerTheorems.DestroyedIsSilent | client/src/app/components/ember-scanner/ember-scanner.service.ts:514-534 | a destroyed player never sounds again |
| ScannerTheorems.PlayedIsHeard | client/src/app/components/ember-scanner/ember-scanner.service.ts:564-628 | a call given to an unpaused player is heard once decoded, alone, in place of what was playing, and the queue, mode and holds stay |
| ScannerTheorems.ReplayIsHeard | client/src/app/components/ember-scanner/ember-scanner.service.ts:671-673 | replaying hears the current or else the previous call again |
| ScannerTheorems.HistoryIsHeard | client/src/app/components/ember-scanner/ember-scanner.service.ts:498-512 | a call of the history is heard when its reply comes, in whatever mode; other replies and a second one change nothing |
| ScannerTheorems.LateRepliesIgnored | client/src/app/components/ember-scanner/ember-scanner.service.ts:768-798 | after leaving live listening or playback nothing sounds or waits, and no reply still on its way is played |
| LiveListening.NextIsHeard | client/src/app/components/ember-scanner/ember-scanner.service.ts:704-732 | live, when a call has ended and the pause is over, the first call waiting is heard and the others wait on, announced with their number |
| LiveListening.SkippedToNext | client/src/app/components/ember-scanner/ember-scanner.service.ts:704-732 | a skip goes on to the first call waiting, at once or after the pause, whatever is playing or pausing |
| LiveListening.UndecodableGivesWay | client/src/app/components/ember-scanner/ember-scanner.service.ts:638-646 | a call that cannot be decoded gives way to the first call waiting |
| LiveListening.DeselectedGivesWay | client/src/app/components/ember-scanner/ember-scanner.service.ts:953-973 | a call that is no longer selected gives way to the first one waiting that is |
| LiveListening.QueueIsHeardThrough | client/src/app/components/ember-scanner/ember-scanner.service.ts:564-732 | left alone, the player hears the queue through in order, each call announced with the number still waiting |
| LiveListening.FirstInFirstHeard | client/src/app/components/ember-scanner/ember-scanner.service.ts:564-732 | whatever order pushes, decodes, alerts, ends of sources and pauses come in, paused or not, the calls heard and those ahead are together what they were, in order, followed by those pushed |
| LiveListening.PushedIsHeardOrWaits | client/src/app/components/ember-scanner/ember-scanner.service.ts:649-669 | a call pushed to an idle player is heard; otherwise it waits behind those already waiting |
| LiveListening.FetchedIsHeardFirst | client/src/app/components/ember-scanner/ember-scanner.service.ts:461-496 | in every mode a call fetched is heard before those waiting, once its reply comes |
| LiveListening.QueueHasAudio | client/src/app/components/ember-scanner/ember-scanner.service.ts:649-669 | in every reachable state each call waiting has audio |
| LiveListening.PausedBeginsNothing | client/src/app/components/ember-scanner/ember-scanner.service.ts:536-582 | over every run that stays paused no decode is begun, and what is heard was being decoded at the pause |
| LiveListening.PausedHearsAtMostOne | client/src/app/components/ember-scanner/ember-scanner.service.ts:536-582 | at most one call is heard while paused |
| LiveListening.ResumedHearsNext | client/src/app/components/ember-scanner/ember-scanner.service.ts:536-549 | resuming hears the first call waiting when nothing is playing |
| LiveListening.LivefeedButtonMeaning | client/src/app/components/ember-scanner/ember-scanner.service.ts:733-798 | the button starts live listening from offline and otherwise puts the player to rest; what the server is told in each mode |
| LiveListening.PlaybackIsEntered | client/src/app/components/ember-scanner/ember-scanner.service.ts:461-496 | from offline, asking for a call enters playback, ends any hold, gives the own selection back and sends the request |
| LiveListening.PauseEndsWithPlayer | client/src/app/components/ember-scanner/ember-scanner.service.ts:514-534 | the pause between two calls does not outlive the player |
| LiveListening.NotForThePlayer | client/src/app/components/ember-scanner/ember-scanner.service.ts:1089-1212 | a call to download and a listing of the history change nothing in the player |
| SelectionEdits.AvoidMeaning | client/src/app/components/ember-scanner/ember-scanner.service.ts:192-288 | for every target, status and talkgroup: which talkgroups an avoid switches, and to what; nothing else changes, and a missing entry leaves the selection as it was |
| SelectionEdits.AvoidEffects | client/src/app/components/ember-scanner/ember-scanner.service.ts:192-288 | after an avoid no hold is in force, the selection has been sent, and outside archive playback exactly the selected calls are in line; where the code fails it has only ended the holds |
| SelectionEdits.CategoryMeaning | client/src/app/components/ember-scanner/ember-scanner.service.ts:800-851 | switching a group or tag turns its talkgroups off if it was on and on otherwise, up to the first one the selection lacks, and no other |
| SelectionEdits.CategoryEffects | client/src/app/components/ember-scanner/ember-scanner.service.ts:800-851 | what else switching a category does: holds, message and line, or none of it where the code fails |
| SelectionEdits.HoldSystemEffects | client/src/app/components/ember-scanner/ember-scanner.service.ts:315-363 | a hold taken leaves in line only what it lets through, outside archive playback all of it; a release leaves everything else alone; the selection in use is the last thing sent |
| SelectionEdits.HoldTalkgroupEffects | client/src/app/components/ember-scanner/ember-scanner.service.ts:365-410 | the same for the talkgroup hold |
| ScannerTheorems.SystemOverlayMeaning | client/src/app/components/ember-scanner/ember-scanner.service.ts:331-345 | the held map has the base's domain and enables exactly the held system's talkgroups the user had on, or all of them when all were off |
| ScannerTheorems.TalkgroupOverlayMeaning | client/src/app/components/ember-scanner/ember-scanner.service.ts:381-391 | the held map has the base's domain and enables exactly the held talkgroup |
| ScannerTheorems.HoldSystemToggles | client/src/app/components/ember-scanner/ember-scanner.service.ts:315-363 | the button restores the own selection when its hold is on, and else overlays the own selection, taking over from the other hold |
| ScannerTheorems.HoldTalkgroupToggles | client/src/app/components/ember-scanner/ember-scanner.service.ts:365-410 | the same for the talkgroup hold |
| ScannerTheorems.HoldsAfterStep | client/src/app/components/ember-scanner/ember-scanner.service.ts:315-410 | a step that is no edit leaves the holds, ends them, or presses one button on the call at hand |
| ScannerTheorems.HoldsKeepOwnSelection | client/src/app/components/ember-scanner/ember-scanner.service.ts:315-410 | over every run without edits the own selection is kept, at most one hold is on, and the map in use is the overlay of the own selection for the call the button was pressed on |
| ScannerTheorems.HoldThenReleaseRestores | client/src/app/components/ember-scanner/ember-scanner.service.ts:315-410 | holding and later releasing restores selection and saved maps exactly |
| ScannerTheorems.CleanQueueConserves | client/src/app/components/ember-scanner/ember-scanner.service.ts:953-973 | current call and queue afterwards are exactly the selected ones of before, in order, unless cleaning ended archive playback with selected calls still queued |
| ScannerTheorems.CleanQueueLeavesSelected | client/src/app/components/ember-scanner/ember-scanner.service.ts:953-973 | nothing deselected is left in line and nothing is made up, in every mode |
| ScannerInvariant.NextKeeps | client/src/app/components/ember-scanner/ember-scanner.service.ts:564-766 | every step of the player keeps its invariant, and, unless it is an edit, the own selection |
| ScannerInvariant.RunKeeps | client/src/app/components/ember-scanner/ember-scanner.service.ts:564-766 | every run keeps the invariant |
| ScannerService.EmberScannerService.Play | client/src/app/components/ember-scanner/ember-scanner.service.ts:564-582 | the whole new state when a call is given or taken from the queue |
| ScannerService.EmberScannerService.Stop | client/src/app/components/ember-scanner/ember-scanner.service.ts:745-766 | the source is silenced, the generation moves on, the call becomes the previous one |
| ScannerService.EmberScannerService.Enqueue | client/src/app/components/ember-scanner/ember-scanner.service.ts:649-669 | queueing in front or behind, and playing at once when idle |
| ScannerService.EmberScannerService.Skip | client/src/app/components/ember-scanner/ember-scanner.service.ts:704-732 | stop, then go on at once or after the pause |
| ScannerService.EmberScannerService.SetPause | client/src/app/components/ember-scanner/ember-scanner.service.ts:536-549 | pausing keeps anything new from being played; resuming readies the audio and plays the next queued call when idle; nothing is started at once |
| ScannerService.EmberScannerService.CleanQueue | client/src/app/components/ember-scanner/ember-scanner.service.ts:953-973 | the filtered queue, and the skip when the current call is deselected |
| ScannerService.EmberScannerService.HoldSystem | client/src/app/components/ember-scanner/ember-scanner.service.ts:315-363 | the hold is taken or released as the hold function says; the object stays valid, the own selection is kept and nothing is started |
| ScannerService.EmberScannerService.HoldTalkgroup | client/src/app/components/ember-scanner/ember-scanner.service.ts:365-410 | the hold is taken or released as the hold function says; the object stays valid, the own selection is kept and nothing is started |
| ScannerService.OverlaySystem | client/src/app/components/ember-scanner/ember-scanner.service.ts:331-345 | the loops build exactly the map a system hold listens by |
| ScannerService.OverlayTalkgroup | client/src/app/components/ember-scanner/ember-scanner.service.ts:381-391 | the loops build exactly the map a talkgroup hold listens by |
| ScannerService.EmberScannerService.Avoid | client/src/app/components/ember-scanner/ember-scanner.service.ts:192-288 | the edited selection for every kind of target, with the holds released and the queue cleaned as the code does |
| ScannerService.EmberScannerService.ToggleCategory | client/src/app/components/ember-scanner/ember-scanner.service.ts:800-851 | the selection with a group or tag switched, up to the first talkgroup that is missing from it and makes the source throw |
| ScannerService.SwitchMembers | client/src/app/components/ember-scanner/ember-scanner.service.ts:820-833 | the nested loops switch exactly the talkgroups of the category, and stop exactly at the first one the selection lacks |
| ScannerService.EmberScannerService.LoadAndPlay | client/src/app/components/ember-scanner/ember-scanner.service.ts:461-496 | entering playback mode and asking for a call |
| ScannerService.EmberScannerService.NextPlayback | client/src/app/components/ember-scanner/ember-scanner.service.ts:1298-1359 | going on to the next row, the next page, one refresh, or out of playback |
| ScannerService.EmberScannerService.GetPlaybackQueueCount | client/src/app/components/ember-scanner/ember-scanner.service.ts:1030-1047 | the count follows the counting function of the listing |
| ScannerService.EmberScannerService.OnDecoded | client/src/app/components/ember-scanner/ember-scanner.service.ts:608-612 | a finished decode counts only under its own generation |
| ScannerService.EmberScannerService.OnAlertDone | client/src/app/components/ember-scanner/ember-scanner.service.ts:614-628 | the source is started only under its own generation |
| ScannerService.EmberScannerService.OnCall | client/src/app/components/ember-scanner/ember-scanner.service.ts:1089-1116 | a call reply is played, queued or ignored by its flag and what was asked for |
| ScannerService.EmberScannerService.OnList | client/src/app/components/ember-scanner/ember-scanner.service.ts:1166-1212 | a listing replaces or extends the one on screen and playback goes on |
| ScannerService.EmberScannerService.LeavePlayback | client/src/app/components/ember-scanner/ember-scanner.service.ts:784-798 | leaving playback for live listening or none |
| ScannerService.EmberScannerService.OnDestroy | client/src/app/components/ember-scanner/ember-scanner.service.ts:514-534 | the whole state after destruction |
| ScannerService.EmberScannerService.EnterPlayback | client/src/app/components/ember-scanner/ember-scanner.service.ts:476-485 | the mode is entered and both holds are released |
| ScannerService.EmberScannerService.OnDecodeFailed | client/src/app/components/ember-scanner/ember-scanner.service.ts:638-646 | a failed decode skips only under its own generation |
| ScannerService.EmberScannerService.OnEnded | client/src/app/components/ember-scanner/ember-scanner.service.ts:624 | the end of a source skips with the pause |
| ScannerService.EmberScannerService.OnSkipTimer | client/src/app/components/ember-scanner/ember-scanner.service.ts:704-732 | the end of the pause goes on in the mode in force |
| ScannerService.SwitchAll | client/src/app/components/ember-scanner/ember-scanner.service.ts:192-288 | the loop over all systems switches every talkgroup |
| ScannerService.SwitchSystem | client/src/app/components/ember-scanner/ember-scanner.service.ts:192-288 | the loop over one system switches its talkgroups and no other |
| Playback.PlaybackTraversesArchive | client/src/app/components/ember-scanner/ember-scanner.service.ts:1298-1359 | from a click on any call of any listing, in either order: playback ends; every later call is heard exactly when the listing passes none over; the calls come in order, each once, exactly when the listing does not start over |
| Playback.PlaybackFollowsTrail | client/src/app/components/ember-scanner/ember-scanner.service.ts:461-496 | from the click on the player hears the call picked and then the calls of the trail, announces each with the number of later calls, is in playback exactly as long as the trail goes on, and then rests |
| Playback.PickedIsHeard | client/src/app/components/ember-scanner/ember-scanner.service.ts:461-496 | offline or in playback, held or not, the call picked is fetched and heard |
| Playback.SearchIsBrowsed | client/src/app/components/ember-scanner/ember-scanner.service.ts:684-688 | a search made offline puts its page on screen, and any call of it can be picked |
| Playback.MoreIsBrowsed | client/src/app/components/ember-scanner/search/search.component.ts:301-363 | the rows that follow, asked for with append, are added to it, and any call of the whole can be picked |
| Playback.CycleFollowsTrail | client/src/app/components/ember-scanner/ember-scanner.service.ts:1298-1359 | when a call ends the next one of the trail is fetched and heard, across pages, or playback is left |
| Playback.EndIsLeft | client/src/app/components/ember-scanner/ember-scanner.service.ts:1309-1353 | at the end the listing is asked for again, once, and the player leaves playback in silence |
| Playback.CountsLaterCalls | client/src/app/components/ember-scanner/ember-scanner.service.ts:1030-1047 | the announced count is the number of later calls in the archive, on any listing, in either order |
| Playback.MergedIsOnScreen | client/src/app/components/ember-scanner/ember-scanner.service.ts:1183-1197 | the following page appended to a listing gives a listing of as many rows as limit, which playback can start from |
| Playback.SearchIsListing | server/call.go:537-559 | which rows of the archive a page holds: those from the offset on, at most the limit and at most 500 |
| PlaybackTrail.VisitsAll | client/src/app/components/ember-scanner/ember-scanner.service.ts:1305-1358 | every later call is visited exactly when the listing is such that none is passed over |
| PlaybackTrail.VisitsInOrder | client/src/app/components/ember-scanner/ember-scanner.service.ts:1305-1358 | the calls are visited in order, each at most once, exactly unless the listing is a whole archive longer than a page, oldest first |
| PlaybackTrail.ReachesAllCases | server/call.go:537-542 | the condition for pages the server sends in full, and for collected listings of any length |
| PlaybackTrail.TrailEnds | client/src/app/components/ember-scanner/ember-scanner.service.ts:1309-1353 | playback comes to an end from every listing |
| Delayer.EmitTerminatesExactly | server/delayer.go:44-79 | with the clock read anew at every call, emitting ends exactly when the call has a delay or some reading has come to its time; then within two calls, or two for each reading before that one and one more |
| Delayer.EachCallOnceAndNeverEarly | server/delayer.go:44-186 | over every run with restarts each accepted call is pending or delivered, not both, delivered at most once, never before timestamp plus delay; rows and timers coincide |
| Delayer.DeliveredExactlyWhenDue | server/delayer.go:48-141 | with no timer overdue, the delivered calls are exactly those whose time has come |
| Delayer.RecoverKeeps | server/delayer.go:81-141 | recovery takes up every row, in any order, losing and repeating nothing |
| Delayer.EmitsAtFirstInTime | server/delayer.go:44-79 | a call without a delay is emitted at the first reading in time and not sooner |
| Delayer.EmitFollowsReadings | server/delayer.go:44-79 | a step emits or delays a call as the two functions that call each other do, under a clock that ticks between readings |
| Delayer.FireDelivers | server/delayer.go:62-70 | a timer that fires delivers its own call then, and changes no other |
| Delayer.ClockGoesOn | server/delayer.go:44-141 | how much time each step takes |
| Delayer.NextKeeps | server/delayer.go:44-186 | every step keeps the invariant that ties archive, table, timers and deliveries together |
| Delayer.CallDelayer.EmitCall | server/controller.go:159-167 | hands a call over or to the delayer, whole new state; a call without a delay is handed over when the clock has come to it |
| Delayer.CallDelayer.DelayCall | server/delayer.go:48-79 | the pending row and the timer of a delayed call |
| Delayer.CallDelayer.OnTimer | server/delayer.go:62-70 | a timer's firing removes row and timer and delivers |
| Delayer.CallDelayer.Start | server/delayer.go:81-141 | recovery of all rows after a restart |
| CallArchive.ArchiveStaysApart | server/call.go:222-240 | through any mix of ingests and prunes calls of a channel are more than the frame apart, and a call is turned away exactly when storing it would break that |
| CallArchive.CollidesWithinFrame | server/call.go:230-234 | the nanosecond bounds of the query mean a distance of at most the frame in stored milliseconds |
| CallArchive.PruneKeepsApart | server/call.go:351-363 | pruning keeps exactly the calls not older than the limit, and the separation |
| CallArchive.StepStores | server/controller.go:445-468 | a step stores the call it takes in unless that is a duplicate, under a new identifier and with its time in milliseconds, and drops only what is outdated |
| CallArchive.LostOnlyByPruning | server/call.go:351-363 | over every run a stored call is there until a prune finds it outdated |
| CallArchive.Calls.CheckDuplicate | server/call.go:222-240 | true exactly when a stored call of the channel lies within the frame |
| CallArchive.Calls.WriteCall | server/call.go:592-668 | appends the call under a new identifier |
| CallArchive.Calls.Prune | server/call.go:351-363 | the rows left after pruning |
| CallArchive.Calls.Store | server/controller.go:445-468 | checks, unless detection is off, then writes, as one step of the run |
| IngestDistinct.RefsStayDistinct | server/controller.go:276-409 | taking in a call keeps references of systems, talkgroups and units distinct exactly when nothing is created under a reference in use |
| IngestDistinct.ResolvedIdsDoNotClash | server/controller.go:185-219 | identifiers that are absent or resolve never lead to such a clash |
| IngestReload.RunKeepsRefsDistinct | server/controller.go:276-436 | the same over every run of calls, with the configuration saved and read back after any of them |
| IngestReload.ReloadKeepsDistinct | server/controller.go:411-425 | saving and reading back keeps references distinct |
| IngestDistinct.PopulatedKeepsDistinct | server/controller.go:296-409 | within the system the call goes to, exactly a clashing creation breaks distinctness |
| IngestDistinct.AddPatchesKeepsDistinct | server/controller.go:355-391 | adding missing patches never makes references collide |
| IngestDistinct.NewRefIsLeastUnused | server/system.go:198-212 | the reference given to a system known by label is the least positive unused one, at most one more than the number of systems |
| IngestDistinct.NewRefRunsOut | server/system.go:198-212 | the reference given to a system known by label only is the least unused one, and none is given exactly when all are in use |
| IngestDistinct.LabelsStayDistinct | server/controller.go:108-142 | no call makes two groups or two tags share an identifier or a label |
| IngestDistinct.UniqueRefsAreDistinct | server/controller.go:144-157 | patch references come out once each, without zero, none lost |
| IngestDistinct.MergeKeepsDistinct | server/unit.go:123-172 | merging units keeps references distinct, keeps the old ones in place and adds exactly the new references |
| IngestExtends.IngestOnlyExtends | server/controller.go:239-409 | at most one system changes or is added; old talkgroups keep place and fields unless a placeholder is repaired; additions are exactly the call's own talkgroup and its patches that are missing and not blacklisted; units are appended; rejected or inactive calls change nothing |
| IngestExtends.PopulatedExtends | server/controller.go:243-409 | the same for the one system, clause by clause |
| IngestExtends.BlacklistedPatchIsNotCreated | server/controller.go:360-368 | a blacklisted reference patched in never becomes a talkgroup |
| IngestExtends.CreatedIsFiled | server/controller.go:297-352 | a created talkgroup is in exactly the named groups, in order, under the named tag or the stand-ins, and no other group or tag appears |
| IngestExtends.RepairedIsFiled | server/controller.go:241-274 | a repaired placeholder is filed where the call says, and otherwise stays filed as it was |
| IngestExtends.PatchedIsFiled | server/controller.go:370-391 | a talkgroup added for a patch is in the stand-in group and under the stand-in tag, labelled with its reference |
| IngestExtends.CreatedIsNamed | server/controller.go:313-345 | reference, label and name of a created talkgroup, with what stands in where the call brings none |
| IngestExtends.RepairedIsNamed | server/controller.go:264-271 | a repaired talkgroup takes the label and name of the call, and keeps a name somebody gave it when the call brings none |
| IngestExtends.AutoNameMeaning | server/controller.go:94-106 | the name made up is the first usable group and the label, trimmed, or the stand-in name |
| IngestTwice.IngestTwiceIsOnce | server/controller.go:174-409 | receiving a call twice leaves what receiving it once does, exactly when its identifiers are absent or known |
| IngestReload.IngestAfterReload | server/controller.go:411-436 | after saving and reading back, with new identifiers, other orders and lingering groups, a second receipt changes nothing, exactly unless the talkgroup is labelled with its own reference and its groups came back otherwise than the call names them |
| IngestReload.StoreReloads | server/talkgroup.go:234-448 | what a reload is taken to keep of a system's talkgroups is what writing and reading them back gives |
| IngestTwice.IngestAbsorbs | server/controller.go:174-409 | one receipt leaves nothing for the call to add |
| IngestTwice.AbsorbedStays | server/controller.go:174-409 | a call with nothing to add changes nothing |
| IngestTwice.UnknownIdsKeepAdding | server/controller.go:185-219 | an identifier that does not resolve makes every receipt add again |
| IngestTwice.UnknownIsNoGroup | server/controller.go:94-106 | the stand-in group never becomes part of a name |
| Controller.MatchedIsThere | server/controller.go:411-443 | the system and talkgroup a call is matched to are in the configuration afterwards, and such a call is never broken off |
| Controller.NamedIsMatched | server/controller.go:185-237 | a call that goes by a system and a talkgroup that are there is turned away exactly when that talkgroup is blacklisted, and otherwise stored under it |
| Controller.UnknownTalkgroupIsCreated | server/controller.go:296-443 | a call whose talkgroup is not there is stored under the reference it brings if auto-population is on; otherwise it is unmatched, or broken off exactly when something else was added |
| Controller.UnknownSystemIsCreated | server/controller.go:276-294 | a call whose system is not there: which reference and label the new system gets, and what the call is stored under |
| Controller.StoredUnderOwnRefs | server/controller.go:185-443 | a call without identifiers is stored under the references it brings or not at all |
| Controller.Controller.IngestCall | server/controller.go:174-443 | the step-by-step code reaches exactly the configuration and outcome of the functions |
| Controller.Controller.IngestInto | server/controller.go:221-409 | the same for a call whose system is there |
| Controller.Controller.RepairTalkgroup | server/controller.go:245-274 | the repaired placeholder, with groups and tag ensured |
| Controller.Controller.CreateTalkgroup | server/controller.go:297-352 | the appended talkgroup, with groups and tag ensured |
| Controller.Controller.AddMissingPatches | server/controller.go:355-391 | one placeholder for each missing patch, in order |
| Controller.Controller.MissingPatches | server/controller.go:360-368 | the patches that are neither blacklisted nor there, in order |
| Controller.Controller.PopulateSystem | server/controller.go:296-409 | the system after creation, patches and units, and whether anything was written |
| Controller.Controller.CreateSystem | server/controller.go:276-294 | the appended system with its reference and label |
| Controller.Controller.GetNewSystemRef | server/system.go:198-212 | the nested search finds the least unused reference, or zero when there is none below the bound |
| Controller.Controller.EnsureAutoPopulateGroups | server/controller.go:108-124 | the groups after adding the missing labels |
| Controller.Controller.EnsureAutoPopulateTag | server/controller.go:126-142 | the tags after adding a missing label, and the identifier under it |
| Controller.Controller.GetGroupIds | server/group.go:179-189 | the identifiers of the known labels, in order |
| Controller.UniquePatchRefs | server/controller.go:144-157 | the loop with its set computes the references once each |
| Controller.AutoPopulatedTalkgroupName | server/controller.go:94-106 | the first usable group before the label, or the default name |
| Controller.Add | server/unit.go:123-138 | a unit is appended exactly when its reference is not there |
| Controller.MergeInto | server/unit.go:157-172 | the merged list, and whether it grew |
| Controller.CollectUnits | server/controller.go:394-404 | the units that came with a label, each reference once |
| Blacklists.CheckBlacklisted | server/blacklists.go:30-37 | true exactly when the reference's decimal text is one of the comma-separated parts |
| Blacklists.ListedIsBlacklisted | server/blacklists.go:30-37 | references written out with commas blacklist exactly themselves |
| ActivityWindow.BucketsTile | server/activity.go:115-126 | the buckets tile the window without gap or empty bucket exactly when it starts at or after the epoch, or on a boundary |
| ActivityWindow.IndexIsBucket | server/activity.go:177-182 | the query's index of a time is in range and names the one bucket that contains it, for both kinds of division |
| ActivityWindow.BucketCount | server/activity.go:47-118 | the four ranges there are, with their windows and widths, and as many buckets as the hours hold, or one more off a boundary |
| Activity.Aggregate | server/activity.go:206-230 | the loop fails exactly when a row is out of range, and else sums the rows by bucket, talkgroup and cell with the latest time |
| Activity.RowsCountCalls | server/activity.go:195-227 | summing the grouped rows of any choice of keys counts the calls with those keys |
| Activity.RowsKnowLatest | server/activity.go:224 | the latest time over a talkgroup's rows is that of its latest counted call |
| Activity.GroupIsTrue | server/activity.go:217-224 | a talkgroup's calls, timeline, last call and details are those counted directly |
| Activity.Rank | server/activity.go:231-240 | whatever order the map is visited in, the ranking holds every group and is strictly ordered |
| Activity.OneRanking | server/activity.go:234-240 | there is only one such ranking |
| ActivityReport.ReadScopedActivity | server/activity.go:110-242 | for any order of the rows the report is the directly counted one, limited to the talkgroups and systems the access permits; there is none for other hours or when a call is out of range |
| ActivityReport.PermittedTalkgroups | server/activity.go:127-156 | the loop collects exactly the talkgroups the access grants, each once, and their systems |
| ActivityReport.ListSystems | server/activity.go:157-170 | the systems listed, in the store's order: all, or those with a permitted talkgroup |
| ActivityReport.OneReport | server/activity.go:195-242 | the report does not depend on the order of rows or of map iteration |
| ActivityReport.TotalsAgree | server/activity.go:217-227 | the total, the buckets, the talkgroups and their timelines add up to the same number of counted calls |
| ActivityReport.BucketsCountTheirSpan | server/activity.go:115-227 | there always is a report from the epoch on, and each bucket counts the calls recorded in its own span |
| ActivityReport.ListenerCounts | server/activity.go:127-194 | with the talkgroups collected for its access, a listener counts a call exactly when the administrator does, the access grants its talkgroup, it has no pending row, and the delayer would not hold it at the end of the window |
| ActivityReport.ListenerAtMostAdmin | server/activity.go:127-194 | no total, bucket, talkgroup, last call or cell a listener sees exceeds the administrator's |
| ActivitySystems.AdminReportCounts | server/activity.go:177-199 | which calls an administrator counts: those of the last hours up to now, under a talkgroup of their system, of the system asked for |
| ActivitySystems.SystemReportIsOfItsCalls | server/activity.go:183-186 | the report for one system is the report of that system's calls |
| ActivitySystems.SystemRankingIsPart | server/activity.go:183-240 | its talkgroups are those of the system in the report for all, with the same numbers in the same order |
| ActivitySystems.SystemsAddUp | server/activity.go:183-227 | over all systems the totals and the bars add up to those of the report for all |
| ActivitySystems.RankingOrder | server/activity.go:234-240 | most calls first, then the lower identifier |
| ActivitySystems.RankedDetails | server/activity.go:195-219 | each talkgroup ranked has counted calls and its details as stored |
| Access.HasAccess | server/access.go:99-135 | granted exactly when the scope is the wildcard or an entry opens the talkgroup |
| Scopes.GetScopedSystems | server/system.go:253-412 | a talkgroup whose tag exists is shown exactly when the access allows it, and nothing else is; every selected system is shown with its own place, arranged by it; talkgroups keep their configured places, or, sorted, have their ranks by title |
| Scopes.RawSystems | server/system.go:259-327 | the systems an access selects, entry by entry and with repetitions, hold exactly the talkgroups it allows |
| Scopes.SelectedIsOpened | server/system.go:282-326 | an entry selects exactly the talkgroups it opens |
| Scopes.ShowTalkgroups | server/system.go:329-388 | each listable talkgroup is shown, as many in all as are listable, in order of their configured places, or, sorted, of their ranks by title |
| Scopes.RenderedFields | server/system.go:343-377 | what is shown of a talkgroup: reference, title, tag, its known groups in order and the first of them, and, unsorted, its own place |
| Scopes.TitleOrderMeaning | server/system.go:335-337 | the order by title: the beginning of another first, else the smaller character where they differ |
| Scopes.GetGroupsMap | server/group.go:191-259 | each known label, system and talkgroup once, exactly when the scoped map has it |
| Scopes.GetTagsMap | server/tag.go:178-244 | the same for tags |
| Scopes.IndexesFollowAccess | server/group.go:191-259 | in both indexes a talkgroup stands under a label exactly when it may be shown and carries the label in the configuration |
| Selection.EndsAgree | server/call.go:470-491 | after a sync and its reading, the player's test, the live feed's test and the history filter agree on every call |
| Selection.SyncIsReadBack | server/livefeed.go:40-73 | the server's matrix is the player's map without empty systems, whatever order the payload is read in |
| Selection.SyncCarries | client/src/app/components/ember-scanner/ember-scanner.service.ts:1512-1522 | the payload carries exactly the map's entries |
| Selection.IsActive | client/src/app/components/ember-scanner/ember-scanner.service.ts:953-966 | the player's loop finds whether the talkgroup or a patch is on |
| Selection.Livefeed.FromMap | server/livefeed.go:40-73 | the matrix is a reading of the payload, whatever was there before and whatever is malformed in it |
| Selection.Livefeed.IsAllOff | server/livefeed.go:75-88 | true exactly when no call whatsoever would be let through |
| Selection.Livefeed.ActiveTalkgroups | server/livefeed.go:90-104 | each talkgroup that is on, once, under its system, and no empty lists |
| Selection.Livefeed.IsEnabled | server/livefeed.go:106-123 | true exactly when there is a call and its talkgroup or a patch is on |
| Decimal.AtoiOfPrint | server/livefeed.go:51-59 | a decimal key is read back as the reference, if it fits 63 bits |
| Decimal.AtoiOfSigned | server/livefeed.go:51-59 | signs, the two ends of the range, and what is not read |
| TalkgroupStore.WriteThenRead | server/talkgroup.go:290-448 | reading after writing gives the list as a permutation by order: kept identifiers kept, new ones fresh and distinct, fields equal, groups exactly the listed ones and those that linger; removed rows gone; a listed row of another system is updated in place and not read back; other rows untouched |
| TalkgroupStore.WriteOneEffect | server/talkgroup.go:350-440 | one talkgroup's write: its row, its exact memberships, and nothing about any other talkgroup |
| TalkgroupStore.WriteAllEffect | server/talkgroup.go:350-440 | writing the list stores every talkgroup under an identifier of its own and touches no other |
| TalkgroupStore.StaleGroupLingers | server/talkgroup.go:387-426 | an input for which a group that is no longer listed comes back |
| TalkgroupStore.Talkgroups.WriteTx | server/talkgroup.go:290-448 | tables and list after the write, with the stale row numbers carried along |
| TalkgroupStore.Talkgroups.ReadTx | server/talkgroup.go:234-288 | each row of the system once, ordered, with its positive groups |
| TalkgroupStore.Talkgroups.WriteTalkgroup | server/talkgroup.go:350-440 | the tables and the identifier after one talkgroup |
| TalkgroupStore.Database.DeleteAbsent | server/talkgroup.go:306-348 | rows no longer listed and their memberships are deleted |
| TalkgroupStore.Database.StaleRows | server/talkgroup.go:387-410 | the membership rows the cleanup finds |
| AuthLimiter.TableAgreesWithHistory | server/auth_limiter.go:33-89 | for every history with a clock that does not run backwards the swept table holds each address's run and window end |
| AuthLimiter.AnswersQuestionsByHistory | server/auth_limiter.go:68-89 | a wait is answered exactly when the live run has reached the limit, and it is what is left of the window |
| AuthLimiter.AnswersFailuresByHistory | server/auth_limiter.go:33-59 | a failure locks exactly when the run it completes reaches the limit |
| AuthLimiter.Limiter.Failed | server/auth_limiter.go:33-59 | sweeps, counts the failure and answers |
| AuthLimiter.Limiter.Sweep | server/auth_limiter.go:33-59 | exactly the expired entries are dropped |
| AuthLimiter.Limiter.Reset | server/auth_limiter.go:61-66 | forgets the address |
| AuthLimiter.Limiter.RetryAfter | server/auth_limiter.go:68-89 | answers and drops an expired entry |
| Afs.DecodeOfFormat | client/src/app/components/ember-scanner/main/main.component.ts:682-684 | what is shown decodes to the low eleven bits: to the reference itself exactly when it is below 2048 |
| Afs.FormatOfDecode | server/dirwatch.go:612-622 | every text of the pattern decodes, and showing the result gives the text back exactly when the fields are at most 15, 15 and 7 |

## Left out

- ScannerService: the source's fields are grouped into records (deck, holds, browse), so each method states the whole new state; the audio graph, volume and events to components are not modelled.
- ScannerService.EmberScannerService.SetPause: suspending the audio context and its output on a pause.
- ScannerService.EmberScannerService.Avoid: the timers that end an avoid after some minutes.
- ScannerService.EmberScannerService.OnDestroy: closing the socket, the audio contexts and the reconnect timer.
- ScannerService.EmberScannerService.OnCall: what is done with a call to download; here it changes nothing.
- ScannerTheorems.HoldsKeepOwnSelection: avoid timers that expire during a hold and a configuration message during a hold, which overwrite the saved selection, are not steps of the model.
- ScannerTheorems.HoldThenReleaseRestores: says nothing when the other hold has taken over in between; `HoldSystemToggles` and `HoldTalkgroupToggles` cover that case.
- Playback.PlaybackTraversesArchive: the archive is fixed, every request is answered, decodes succeed and no live call is pushed meanwhile.
- Playback.SearchIsListing: filters and dates of a search; calls of equal time keep one order across pages, which the server does not promise.
- Delayer.EachCallOnceAndNeverEarly: a crash between storing a call and emitting it, while its emitter waits for the clock, or between removing a row and emitting it, and a change of a configured delay across a restart are not steps of the model.
- Delayer.CallDelayer.EmitCall: while a call without a delay waits for the clock, other steps come before or after it.
- CallArchive.ArchiveStaysApart: the frame is the same throughout, duplicate detection stays on, and database errors do not occur.
- CallArchive.Calls.WriteCall: the rows of frequencies, patches and units.
- CallArchive.Calls.Store: the conversion of audio before the write and the emission after it.
- IngestDistinct.RefsStayDistinct: assumes fewer systems than references; beyond that the search for a new reference gives zero.
- IngestTwice.IngestTwiceIsOnce: the configuration in memory, without the saving and reading back that `IngestReload` adds; for calls that name a system, as call validation requires, and whose talkgroup is there or has a reference; for others the code fails after it has saved.
- IngestTwice.IngestAbsorbs: the configuration in memory, likewise.
- IngestTwice.UnknownIdsKeepAdding: an identifier handed out by the save may happen to be the one asked for.
- IngestReload.IngestAfterReload: for calls whose identifiers are known and whose references or labels name one system and one talkgroup; every label names the group or tag it named.
- Controller.Controller.IngestCall: the saving and reading back after a change, the configuration sent to clients, and the logging are not part of the step; a call is taken to arrive without a system or talkgroup attached.
- Controller.Controller.IngestInto: the same.
- Controller.Controller.EnsureAutoPopulateGroups: the write and read after each added group, which give it its identifier.
- Controller.Controller.EnsureAutoPopulateTag: the same for a tag.
- Scopes.GetScopedSystems: sorting by label rearranges and renumbers the configured list itself in the source; the model sorts a copy, so that side effect on the configuration is not captured.
- Selection.EndsAgree: a call's patches are those stored with it; patched references that are no talkgroup of the system are not stored.
- ActivityReport.ReadScopedActivity: the choice of access for a listener's message.
- TalkgroupStore.WriteThenRead: identifiers in the list were handed out by this store.
- Afs.FormatOfDecode: only the decoding branch of the file-name parser; the mask search is not part of this model.
- Access lists and groups, tags and systems: adding, removing and their own tables.
- The search's access filter, which also matches patches and replaces the base filter, and so is not the relation of `HasAccess`.
- HTTP, WebSocket, tokens, password hashing, file watching, transcoding, downstream posting, SQL text and migrations: input and output.
- The display, timers of the display, dimmer, media keys and alert sounds; an alert is one asynchronous step.
