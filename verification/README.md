# A verified model of Weld's stateful cores

Weld hoists application windows from one machine to another. This project models the parts of it whose
behaviour depends on state, on time, or on several actors at once, and proves what those parts promise.
`dafny verify dfyconfig.toml` checks all of it. One module stands for one component:

| file | component |
|---|---|
| `NetworkProtocol.dfy` | the durable record and the host of an isolated network test, as guarded atomic steps of a service, of recoveries, of the cancelling launcher and of everybody else; invariants and safety of all runs |
| `NetworkSupervisor.dfy` | the service and the recovery as programs over those steps: every command may fail, take effect and still fail, or be the last one before the process dies |
| `Lease.dfy` | the DHCP hook and the status it publishes |
| `Mailbox.dfy`, `Stream.dfy` | the frame mailbox; the session worker and the presenting widget, interleaved access by access |
| `StreamManager.dfy` | which peer's window plays or is being recovered |
| `StreamSelection.dfy` | the manager's operations as steps of the session worker |
| `Accessibility.dfy` | the bounded traversal of an application's object graph |
| `RetainedUi.dfy` | reuse of prepared drawing data, and the detection it relies on |
| `PixelSnap.dfy` | alignment of nodes, paint and clips to physical pixels |
| `Access.dfy` | revocable permits |
| `Hoisting.dfy` | exclusive assignment of windows to endpoints, and their catalogues |
| `ControlRequests.dfy` | requests to a window's remote control, and their replies |
| `LaunchPolicy.dfy` | the handshake between launchers, launch policies and the native host |
| `LayerFocus.dfy` | keyboard focus among desktop layers and windows |

## How the models are built

Objects whose methods update fields are classes. Each method's contract gives the whole new state as a
function of the old one, and what the source promises is proved about those functions, mostly over runs of
any length. Components with several threads or processes are state machines: `Permitted`, `Can` or `CanWork`
say when a step may happen, and a theorem about `Legal` states and steps holds of every interleaving. Clocks,
failures, answers of other programs and other threads come in as parameters, or as choices the proofs make no
assumption about.

Some promises turned out not to hold of the code as it is. Each of these has a lemma with a concrete case, and
next to it the condition under which the promise holds:

* A restoration can delete a namespace of others. Its checks are of a name: the namespace may be put there after
  the name was found unused (`UncheckedDeletion`), may take the place of the one that was checked
  (`SwappedDeletion`), or may have been there when the service died between announcing and recording its own, and
  be adopted (`AdoptedDeletion`). The namespace deleted is this run's own exactly if the service was the last to put
  one there, and a check was of that very namespace exactly if nobody put one there since (`DeletionIsGuarded`).
* An accessibility report that does not call itself truncated can lack an object the query asks for, because a
  name or id that cannot be read only counts as missing (`SaveGoesMissing`). It is exact if and only if no
  reachable object is dropped for this reason (`ExactIffNothingDropped`).
* A touch can be routed although its picture is not on screen, exactly if the last paint had no area
  (`TouchWithoutPicture`, `RoutedTouch`).
* An automatic resume can bring up another window, for instance if ids in the catalogue are not unique
  (`ResumesAnotherWindow`); it is the same one exactly if the first usable entry of its id is
  (`ResumesThatWindow`).
* Change detection misses lost components if exactly as many components that it does not watch were gained, and
  then an outdated picture stays (`LossGoesUnnoticed`, `LossDoesNotSettle`, `BalancedChangeIsOutdated`). Without
  such a change no frame is outdated (`DetectionIsExact`, `DetectedFramesAreFresh`).
* A lease status can stay ready over a half-written resolver if a hook is cut short while it rewrites that
  (`CutShortStaysReady`); `ReadyResolves` says exactly when the resolver is the one published.
* A catalogue can offer a window although every request for it is refused (`StaleMarkIsRefused`,
  `OfferedIsAccepted`).
* Descendants of a snapped node whose determinant is within the threshold stay behind
  (`DescendantsKeepTheirPlace`).

### Assumptions about the host of a network test

A check and the reading it rests on are one atomic step, and so is each replacement of the record. The service
of a run is started at most once. Nobody but the service takes the device from NetworkManager, and replugging
gives a new identity. While the record says the device is not released, and once an attempt has seen the
original profile active again, others do not change the active connection of that device. Everything else may
happen at any time: unplugging, edits of the profile, processes and interfaces entering the namespace, a
namespace or directories put there or removed by others, a lease that ends, lost routes, cancellation.

## Model

| member | source | states |
|---|---|---|
| NetworkProtocol.NextInv | tools/network-hoist/lifecycle.py:438-470 | every atomic step of any actor keeps intent before effect, the truth of the record, and what the lock holder remembers |
| NetworkProtocol.AlwaysInv | tools/network-hoist/lifecycle.py:438-470 | at every point of every run an owned namespace, a released or moved device, a lease and a made directory are announced in the durable record |
| NetworkProtocol.ClosedIsTerminal | tools/network-hoist/lifecycle.py:650-669 | once closed is durable it stays so, nothing is owned, moved or leased, and no later step builds or repairs anything |
| NetworkProtocol.CancelledServiceStaysOut | tools/network-hoist/lifecycle.py:428-431 | a service that has not taken the lock before the cancellation marker exists never takes a step |
| NetworkProtocol.ServiceSawItself | tools/network-hoist/lifecycle.py:429-462 | whatever the service relies on, it has seen itself since it took the lock |
| NetworkProtocol.BuildingIsGuarded | tools/network-hoist/lifecycle.py:432-458 | a namespace is added, and the device released and moved, only after this service found the host as planned and with the intent recorded, and moved only after NetworkManager was seen to let go |
| NetworkProtocol.RecordedIndexWasSeen | tools/network-hoist/lifecycle.py:449-461 | an interface index in the record was seen by the service on the planned device, inside |
| NetworkProtocol.ClaimsWereVerified | tools/network-hoist/lifecycle.py:735-774 | whatever an attempt relies on was checked, and true, since this very attempt took the lock |
| NetworkProtocol.MoveOutIsGuarded | tools/network-hoist/lifecycle.py:741-766 | the device leaves the namespace only after this attempt checked ownership, holders, interfaces, physical identity, profile and the interface inside, with release and move recorded; and one and the same namespace was there all along |
| NetworkProtocol.HandOverIsGuarded | tools/network-hoist/lifecycle.py:699-774 | a device is managed and its profile activated only at home and after this attempt found it unchanged there, with its profile as recorded, and before activation managed |
| NetworkProtocol.ChecksMean | tools/network-hoist/lifecycle.py:728-774 | what each check of a restoration finds out about the host and the record |
| NetworkProtocol.WasPutThere | tools/network-hoist/lifecycle.py:440-442 | a namespace under the run's name was put there by one step and has been there since; it is the run's own exactly if the service took that step |
| NetworkProtocol.DeletionIsGuarded | tools/network-hoist/lifecycle.py:735-777 | a deletion follows a check that the namespace is the recorded one, or none, and a check that it is empty, and never takes the device along; what is deleted was checked exactly if nobody put a namespace there since, is the run's own exactly if the service put it there, and carries the recorded inode unless others put it there after the attempt's check |
| NetworkProtocol.UncheckedDeletion | tools/network-hoist/lifecycle.py:735-777 | five steps delete a namespace that was never checked to be owned, after the name was found unused |
| NetworkProtocol.SwappedDeletion | tools/network-hoist/lifecycle.py:741-777 | a namespace that is checked gives way to another, with another inode and not even empty, and that is deleted |
| NetworkProtocol.AdoptedDeletion | tools/network-hoist/lifecycle.py:735-777 | a namespace of others is adopted for the one the service had announced but not added, checked, and deleted |
| NetworkProtocol.RemovalIsGuarded | tools/network-hoist/lifecycle.py:778-790 | a removed directory carries the inode this run read at that path after recording its intent |
| NetworkProtocol.RecordedInodeWasSeen | tools/network-hoist/lifecycle.py:409-413 | a directory inode in the record was read by the service at an earlier step |
| NetworkSupervisor.Take | tools/network-hoist/lifecycle.py:53-64 | one command, check or write of the lock holder, as a continuation of its run: done, refused with or without effect, or killed before or after it; an undisturbed one succeeds exactly if it is possible |
| NetworkSupervisor.StopTestLease | tools/network-hoist/lifecycle.py:728-733 | goes on only if the test's lease is seen to be over |
| NetworkSupervisor.Adopt | tools/network-hoist/lifecycle.py:736-740 | adopts a namespace without checkpoint only if empty and before any release, and makes its inode durable |
| NetworkSupervisor.Insist | tools/network-hoist/lifecycle.py:741-748 | goes on only with an owned namespace without holders or strange interfaces, and tells whether the device is inside |
| NetworkSupervisor.BringOut | tools/network-hoist/lifecycle.py:756-766 | moves the device out only if it is the interface recorded, noting a missing interface index first in memory |
| NetworkSupervisor.WaitForManagedDevice | tools/network-hoist/lifecycle.py:699-722 | within the deadline, asks for management each time only after device, place and profile were checked anew since the last command, and ends well only if the device is managed |
| NetworkSupervisor.ReturnDevice | tools/network-hoist/lifecycle.py:749-774 | brings a released device out, home, managed and onto its profile, so that its return may be recorded |
| NetworkSupervisor.RemoveNamespace | tools/network-hoist/lifecycle.py:775-777 | ends well only if the namespace is gone |
| NetworkSupervisor.Restore | tools/network-hoist/lifecycle.py:725-790 | a restoration continues its run legally however it is disturbed; what it remembers may always be recorded; undisturbed, it succeeds exactly if it may claim the namespace, if there is one, and a released device and its profile are unchanged, and it then undoes everything |
| NetworkSupervisor.VerifyRoute | tools/network-hoist/lifecycle.py:670-682 | exit 0 and 2 tell whether the route check passed, which is durable; a failed one does not undo the restoration |
| NetworkSupervisor.Cleanup | tools/network-hoist/lifecycle.py:650-687 | waits a bounded time for the lock, and gives up or extends the run by one attempt; exit 0 or 2 means that the routes were seen to work or not since the closing, or that all was done before; undisturbed, these exits come exactly if the surroundings cooperate or the run was closed, by what the routes are, and exactly then the host is restored: the device, if present, home, managed and on its profile, and unless closed before, namespace gone, this run's directories removed, closed durable; else exit 1 and an error on record |
| NetworkSupervisor.CreateMountpoint | tools/network-hoist/lifecycle.py:402-413 | a missing directory is announced, made, and recorded by the inode seen there; if nothing is recorded, the directory was there and the service took no step |
| NetworkSupervisor.Service | tools/network-hoist/lifecycle.py:423-517 | nothing happens once closed or cancelled; otherwise the run is extended by one service, whose every step is announced however it ends, and which has recorded all intents and checkpoints if it ends well; undisturbed, with usable directories and a network that answers, it ends well exactly if the host is as planned, and the test is then running with all that is to be undone on record; whenever it ends well, lease and peers were started and both directories were there |
| NetworkSupervisor.Converge | tools/network-hoist/lifecycle.py:650-687 | the run is extended by services and cleanups killed anywhere, and then by one cleanup in which nobody else acts; that restores exactly if the surroundings cooperate when it begins, or the run was closed before, with the exit and the note the routes then call for |
| NetworkSupervisor.RunTest | tools/network-hoist/lifecycle.py:423-790 | an undisturbed test on a host that is as planned leaves, after one cleanup, the world it found, but for the interface index, with exit 0 exactly if the routes work |
| Lease.DnsServers | tools/network-hoist/policy.py:70-80 | accepts a list exactly if all words are usable addresses and one to eight are distinct |
| Lease.UsableQuads | tools/network-hoist/policy.py:73-75 | of the dotted quads exactly 0.0.0.0, 127/8 and 224/4 are unusable |
| Lease.AcceptedLists | tools/network-hoist/policy.py:70-80 | a list is accepted exactly if every word is a usable address and they name one to eight different ones |
| Lease.FirstNamedFirst | tools/network-hoist/policy.py:76-77 | servers keep the order in which they are first named |
| Lease.ServersAreTheWords | tools/network-hoist/policy.py:70-80 | accepted servers are exactly the words, each once, all usable, between one and eight |
| Lease.Hook.Run | tools/network-hoist/lifecycle.py:601-643 | the status and resolver one event leaves, wherever the hook fails or is cut short |
| Lease.ReadyIffAcquired | tools/network-hoist/lifecycle.py:616-642 | over any events, ready means acquired without error |
| Lease.StatusOnlyAdvances | tools/network-hoist/lifecycle.py:611-617 | over any events, an error status is never replaced and acquisition is never taken back |
| Lease.CarrierLoss | tools/network-hoist/lifecycle.py:618-623 | losing the carrier is an error exactly if there was a lease |
| Lease.ReadyResolves | tools/network-hoist/lifecycle.py:624-642 | while ready, the resolver holds what the last hook that rewrote it left: the servers of the last successful hook exactly if no later one was interrupted while rewriting, or left just these |
| Lease.CutShortStaysReady | tools/network-hoist/lifecycle.py:631-642 | a renewal cut short leaves a ready status over another resolver content |
| Mailbox.PresentationMailbox.Push | crates/weld-client/src/mailbox.rs:78-92 | the queue after an arrival, the item pushed out, and one more submitted item to account for |
| Mailbox.PresentationMailbox.Pop | crates/weld-client/src/mailbox.rs:125-148 | which frame is selected, which is too old, its age, and their counts |
| Mailbox.PresentationMailbox.KeepLatest | crates/weld-client/src/mailbox.rs:98-103 | only the newest item stays, and the older one is accounted for |
| Mailbox.PresentationMailbox.Drain | crates/weld-client/src/mailbox.rs:111-120 | everything waiting is handed out in order and accounted for |
| Mailbox.PushKeepsNewest | crates/weld-client/src/mailbox.rs:78-92 | at most two items wait, the arrival last and, when smoothing, the newest before it still there |
| Mailbox.PopNeverStarves | crates/weld-client/src/mailbox.rs:125-148 | a waiting frame is always selected, and only a predecessor of a newer one can be too old |
| Mailbox.NeverReplayed | crates/weld-client/src/mailbox.rs:78-148 | over any operations, frames are selected in the order of submission and each at most once |
| Mailbox.Perform | crates/weld-client/src/mailbox.rs:78-148 | a mailbox driven through any operations holds and has shown what their replay says, with every count |
| Stream.NextInv | apps/weld-connect/src/media.rs:67-73 | every access of either thread keeps at most one request, frames of the selected surface only in the present epoch, and a display that shows what it is stamped with |
| Stream.StaysSound | apps/weld-connect/src/media.rs:136-143 | a frame of the present epoch remains one of the selected surface, or its epoch passes |
| Stream.PublishMeans | apps/weld-connect/src/media.rs:330-350 | a frame is queued behind the newest one if they are alike in epoch, layout and surface, and else replaces all there was |
| Stream.WaitingFramesAreAlike | apps/weld-connect/src/media.rs:330-350 | in every interleaving the frames waiting for the widget are alike |
| Stream.ClearingMeans | apps/weld-connect/src/media.rs:67-73 | a clearing ends with a new epoch, an empty mailbox, and its receiver assigned, without a held frame, or gone |
| Stream.ClearingEmptiesMailbox | apps/weld-connect/src/media.rs:67-73 | whatever the widget does meanwhile, the mailbox is empty before a selection takes effect |
| Stream.OneSurfacePerEpoch | apps/weld-connect/src/media.rs:212-292 | in every interleaving all frames stamped with one epoch come from one surface of one receiver |
| Stream.HeldWasStamped | apps/weld-connect/src/media.rs:212-292 | every frame waiting, held back, held by the widget or on screen was stamped by a commit |
| Stream.ShownUnderOwnStamp | apps/weld-connect/src/video.rs:53-97 | a frame is drawn only under its own stamp, and a stamp still current stands for the selected surface |
| Stream.OnePicturePerStamp | apps/weld-connect/src/video.rs:53-97 | two pictures on screen at any times under one stamp show the same surface |
| Stream.WantedMeans | apps/weld-connect/src/video.rs:111-142 | over any run pictures are wanted exactly while a widget that was prepared has not been paused, destroyed, replaced, or failed |
| Stream.DisplayedWasTaken | apps/weld-connect/src/video.rs:53-116 | what the widget goes by was taken from the mailbox since it last stopped |
| Stream.TextureWasTaken | apps/weld-connect/src/video.rs:53-116 | the picture it holds was taken since it was last destroyed, replaced, or failed |
| Stream.RoutedTouch | apps/weld-connect/src/media.rs:152-170 | a routed touch accepted by a receiver targets its selected surface, whose frame the widget held when the touch was captured, and showed exactly if its last paint was not empty; the epoch did not change in between |
| Stream.InputIsAccepted | apps/weld-connect/src/media.rs:152-170 | a dispatched input, routed or not, reaches the runtime exactly if the receiver is active, the epoch has not changed since the input was captured, and its route, if any, leads to the selected surface |
| Stream.ActiveWasWanted | apps/weld-connect/src/media.rs:178-190 | an active receiver had a request, and pictures were wanted, when it was last polled |
| Stream.InputsWaitInOrder | apps/weld-connect/src/video.rs:252-292 | each captured input is queued once, at the end and within the limit, and inputs are taken from the front |
| Stream.InputWasCaptured | apps/weld-connect/src/video.rs:252-292 | every input queued was captured by the widget under the epoch it carries |
| Stream.TouchWithoutPicture | apps/weld-connect/src/video.rs:185-196 | an empty paint in between leaves a touch routed without a picture on screen |
| StreamManager.Manager.StopStream | apps/weld-connect/src/session.rs:259-274 | playback, recovery and selection end and the playing receiver is deselected |
| StreamManager.Manager.Hoist | apps/weld-connect/src/session.rs:306-350 | the state after hoisting a window, for every way it can fail |
| StreamManager.Manager.Release | apps/weld-connect/src/session.rs:351-361 | only the present target is released |
| StreamManager.Manager.PollPeers | apps/weld-connect/src/session.rs:391-459 | every peer is polled once, and the playing one decides about the interruption |
| StreamManager.Manager.RecoverStream | apps/weld-connect/src/session.rs:477-512 | the recovery times out, waits, resumes, or fails and points back to the applications |
| StreamManager.Manager.Poll | apps/weld-connect/src/session.rs:365-476 | one whole poll, from the peers through an interruption to the recovery |
| StreamManager.PollDecides | apps/weld-connect/src/session.rs:415-475 | a lost connection or failed receiver of the playing peer starts a ten-second recovery of that stream; an error of its control or a closed request ends it; else it plays on |
| StreamManager.PollFollowsConnections | apps/weld-connect/src/session.rs:391-459 | for every other peer, which instance and receiver it has after a poll; none asks for a window |
| StreamManager.RecoveryResumes | apps/weld-connect/src/session.rs:477-512 | a recovery in time waits exactly until its host is connected with the same instance and offers the window; then it plays, or the recovery is over and points back |
| StreamManager.HoistIsGranted | apps/weld-connect/src/session.rs:306-350 | when a hoist succeeds, what then plays, and that whatever played or was recovered is over |
| StreamManager.SelectedStays | apps/weld-connect/src/session.rs:306-361 | hoisting the selected window changes nothing, and releasing another neither |
| StreamManager.RememberAdds | apps/weld-connect/src/session.rs:236-259 | a saved host is added unconnected, and no other peer is touched |
| StreamManager.StopClears | apps/weld-connect/src/session.rs:259-274 | after stopping, no receiver asks for anything, so the next selection is the only request |
| StreamManager.AlwaysCoherent | apps/weld-connect/src/session.rs:259-512 | after any commands and polls playback and recovery are never both present, the selection is the target of whichever is, reconnecting means recovering, and exactly the playing peer's receiver asks for a window, the one that plays |
| StreamManager.RecoveryEndsInTime | apps/weld-connect/src/session.rs:460-491 | a recovery left pending has its deadline ahead, ten seconds from the interruption that began it |
| StreamManager.ResumesInTime | apps/weld-connect/src/session.rs:165-174 | an automatic resume happens strictly before the deadline, with the same host, window and instance |
| StreamManager.TimeoutReturns | apps/weld-connect/src/session.rs:481-491 | an expired recovery ends, points back to the applications, and advances the navigation |
| StreamManager.ResumesThatWindow | apps/weld-connect/src/session.rs:492-505 | the resumed window is the one lost if and only if the first usable entry of its id in the catalogue the hoist reads has its surface and application id |
| StreamManager.ResumesTheSameWindow | apps/weld-connect/src/session.rs:492-505 | with unique window ids in an unchanged catalogue the resumed window keeps its surface and application id |
| StreamManager.ResumesAnotherWindow | apps/weld-connect/src/session.rs:315-330 | a duplicate id makes the resumed window another one |
| StreamSelection.StopIsMirrored | apps/weld-connect/src/session.rs:259-274 | stopping is the worker's deselection of the playing receiver and nothing else |
| StreamSelection.HoistIsMirrored | apps/weld-connect/src/session.rs:309-344 | a hoist that succeeds meets no other request, so the worker may take the steps of its selection, which do what the manager does |
| StreamSelection.PollOnlyDrops | apps/weld-connect/src/session.rs:432-450 | what a poll does to a receiver is a step the worker may take, and asks for nothing new |
| Accessibility.Traverse | crates/weld-accessibility/src/reader.rs:264-343 | succeeds unless permission or the bus is lost; not truncated means that all reachable objects were read and the nodes list exactly those selected as read, and exactly those asked for if and only if none is dropped; truncated means disturbed or cut by a reason in the graph; the limits hold, and the visited-limit guard never fires; every node, in a truncated report too, meets the filters and is true of its object, and an error says what was lost and when |
| Accessibility.ReportMeetsQuery | crates/weld-accessibility/src/query.rs:43-52 | every node has the role asked for, and its name or id contains the text, in lower case |
| Accessibility.ExactAsReadCovers | crates/weld-accessibility/src/query.rs:43-52 | a report that is not truncated has a node for every reachable object of that role with a readable name or id that contains the text |
| Accessibility.ReportIsTrue | crates/weld-accessibility/src/reader.rs:302-340 | a report, cut short or not, says nothing untrue of the objects it names, and names none deeper than asked for |
| Accessibility.ReadNode | crates/weld-accessibility/src/reader.rs:162-220 | role, name and id are read one by one; what is learnt is what the object tells, unless the deadline passes or permission is lost |
| Accessibility.ReadingMeans | crates/weld-accessibility/src/reader.rs:160-206 | an object in time is unread exactly if its role fails, or the details of one the filters ask for; what is read is what it tells |
| Accessibility.Inspect | crates/weld-accessibility/src/reader.rs:302-340 | what inspecting one object yields; not cut means it was read as it tells and everything it announced is queued, cut has a reason |
| Accessibility.ReadChildren | crates/weld-accessibility/src/reader.rs:330-339 | children are queued in order, and a missing one is never silent |
| Accessibility.CompleteReportIsExact | crates/weld-accessibility/src/reader.rs:284-340 | the report of a complete traversal lists exactly the reachable objects selected as read, one node each, with shortest distances and parent ids below their own |
| Accessibility.DroppedIsTheDifference | crates/weld-accessibility/src/reader.rs:170-180 | of the objects asked for, those not selected are exactly the ones whose every name or id that carries the text cannot be read |
| Accessibility.ExactIffNothingDropped | crates/weld-accessibility/src/reader.rs:170-180 | a report exact as read lists exactly the reachable objects asked for if and only if none of them is dropped |
| Accessibility.SaveGoesMissing | crates/weld-accessibility/src/reader.rs:172-180 | a button whose name cannot be read is missing from a report that is not truncated |
| Accessibility.KnownWithin | crates/weld-accessibility/src/reader.rs:282-295 | an object at some distance is visited by then, or the queue still holds something as near |
| Accessibility.FirstIsNearest | crates/weld-accessibility/src/reader.rs:282-295 | a new first entry of the queue is met at its shortest distance from the root |
| Accessibility.ExpandKeepsClosed | crates/weld-accessibility/src/reader.rs:320-340 | queueing all children of a visited object loses nothing reachable |
| Accessibility.EmptyQueueIsComplete | crates/weld-accessibility/src/reader.rs:284-340 | when the queue runs empty, every reachable object was visited at its shortest distance |
| RetainedUi.Renderer.Render | crates/weld-app/src/retained_ui.rs:323-370 | one frame, from the decision through the renderer's update to the counters |
| RetainedUi.Renderer.RetainEntities | crates/weld-app/src/retained_ui.rs:294-301 | all temporary entities become retained ones |
| RetainedUi.Renderer.RetireEntities | crates/weld-app/src/retained_ui.rs:303-310 | no retained entity is left |
| RetainedUi.CacheRefinesPreparation | crates/weld-app/src/retained_ui.rs:323-352 | in every run, with detection that misses nothing, each frame draws what full preparation on every frame would have drawn |
| RetainedUi.ChangesArePrepared | crates/weld-app/src/retained_ui.rs:336-352 | a frame with a change is prepared, and so is the next after a change that needs settling or a renderer start |
| RetainedUi.PreparedExactly | crates/weld-app/src/retained_ui.rs:323-352 | exactly which frames of any run are prepared, by what the frame and the two before it met |
| RetainedUi.StableScenesAreReused | crates/weld-app/src/retained_ui.rs:342-349 | once nothing changes, at most two more frames are prepared and the drawing stays |
| RetainedUi.FramesAreCounted | crates/weld-app/src/retained_ui.rs:359-367 | prepared and reused frames add up to all frames, until a counter saturates |
| RetainedUi.RetainedEntities | crates/weld-app/src/retained_ui.rs:286-310 | the entities that stay are exactly those of the last preparation |
| RetainedUi.DetectComponents | crates/weld-app/src/retained_ui.rs:239-284 | which counts and flags one pass over the visual entities yields, compared with the pass before |
| RetainedUi.DetectionIsExact | crates/weld-app/src/retained_ui.rs:255-281 | a changed look goes unnoticed exactly if nothing watched ticked and as many unwatched components were gained as watched ones lost; likewise for settling |
| RetainedUi.NewEntitiesAreNoticed | crates/weld-app/src/retained_ui.rs:255-281 | a change of the set of visual entities always raises both flags |
| RetainedUi.LossGoesUnnoticed | crates/weld-app/src/retained_ui.rs:249-279 | a style lost for an intermediate raises no flag |
| RetainedUi.LossDoesNotSettle | crates/weld-app/src/retained_ui.rs:256-273 | a style lost for a border colour is not settled |
| RetainedUi.DetectedFramesAreFresh | crates/weld-app/src/retained_ui.rs:239-352 | over any run of visual entities, with the flags of the detection itself, each frame draws what full preparation would have drawn unless a change before it was balanced |
| RetainedUi.BalancedChangeIsOutdated | crates/weld-app/src/retained_ui.rs:239-352 | after a balanced change the frame drawn is not the one full preparation would have drawn |
| PixelSnap.SnapLandsOnPixels | crates/weld-app/src/pixel_snap.rs:174-195 | a snapped corner is on whole pixels, the nearest ones; the extent is that of a positive target, and without one the scale is unchanged |
| PixelSnap.SnapIsIdempotent | crates/weld-app/src/pixel_snap.rs:174-195 | snapping a snapped transform changes nothing, with or without a target |
| PixelSnap.RoundHalves | crates/weld-app/src/pixel_snap.rs:192-192 | rounding takes halves away from zero, on both sides |
| PixelSnap.BoundsAreRounded | crates/weld-app/src/pixel_snap.rs:108-123 | which bounds a rectangle has on the screen, and when it has any |
| PixelSnap.SnapPaint | crates/weld-app/src/pixel_snap.rs:68-88 | every paint and every clip is aligned, each on its own |
| PixelSnap.PaintFillsAlignedBounds | crates/weld-app/src/pixel_snap.rs:73-80 | aligned paint covers exactly the aligned bounds, which are stable |
| PixelSnap.ClipLandsOnPixels | crates/weld-app/src/pixel_snap.rs:90-106 | an aligned clip has whole-pixel corners on the screen and is stable |
| PixelSnap.SnapTree | crates/weld-app/src/pixel_snap.rs:150-170 | the stack loop writes exactly what the recursive definition says and visits each entity of the tree once |
| PixelSnap.SnapNodes | crates/weld-app/src/pixel_snap.rs:136-172 | for any forest and any order of marked entities the pass equals the recursive definition, and visits each entity below a topmost mark once and no other |
| PixelSnap.PassReachedIsAdjusted | crates/weld-app/src/pixel_snap.rs:150-170 | every node at or below a topmost mark, however deep, ends with its transform under the correction handed down to it |
| PixelSnap.MarkedNodesLandOnPixels | crates/weld-app/src/pixel_snap.rs:154-160 | in the world the pass leaves, every marked node that layout placed axis-aligned has its corner on whole pixels, the nearest to where its ancestors' correction puts it, and the extent wanted; any other marked node is where that correction puts it |
| PixelSnap.UnmarkedNodesFollow | crates/weld-app/src/pixel_snap.rs:161-169 | in that world every unmarked entity carries the correction of its nearest marked ancestor, whatever is marked below, and keeps its place relative to it if that ancestor's determinant exceeds the threshold |
| PixelSnap.PassHasMark | crates/weld-app/src/pixel_snap.rs:143-149 | whatever is written is a mark or an unmarked entity with a nearest mark above it |
| PixelSnap.DescendantsKeepTheirPlace | crates/weld-app/src/pixel_snap.rs:161-163 | a descendant keeps its place relative to a node exactly if that did not move or its determinant exceeds the threshold |
| Access.Authority.Open | crates/weld-access/src/lib.rs:105-137 | whom a fresh permit is issued to, its id, and what pruning forgets |
| Access.Authority.Revoke | crates/weld-access/src/lib.rs:161-179 | one permit ends and its participant is blocked, or nothing changes |
| Access.Authority.RevokeAll | crates/weld-access/src/lib.rs:182-196 | admission is closed and every registered permit ends |
| Access.Authority.Close | crates/weld-access/src/lib.rs:76-82 | every registered permit ends with the registry |
| Access.ParticipantNames | crates/weld-access/src/lib.rs:210-218 | names have 1 to 160 characters and no control characters |
| Access.OpenIssues | crates/weld-access/src/lib.rs:105-137 | when a permit is issued, and that it is fresh, registered, authorized, and held once |
| Access.RevokeEnds | crates/weld-access/src/lib.rs:161-179 | revoking a held permit ends it and no other, and blocks its participant; else nothing changes |
| Access.EndEnds | crates/weld-access/src/lib.rs:67-70 | ending a permit ends that one only, and keeps nobody out |
| Access.RevokeAllEnds | crates/weld-access/src/lib.rs:182-196 | a general revocation ends every registered permit, admits nobody, and forgets whom it blocked |
| Access.AllowAdmits | crates/weld-access/src/lib.rs:199-207 | an allowance admits every valid name again and revives no permit |
| Access.CloseEnds | crates/weld-access/src/lib.rs:76-82 | without its registry no permit is authorized or issued |
| Access.HoldersAreCounted | crates/weld-access/src/lib.rs:46-49 | over any run a permit lives exactly as long as it was taken more often than let go |
| Access.AlwaysInv | crates/weld-access/src/lib.rs:105-137 | over any calls every living permit stays registered, ids only grow, and the registry stays within its limit |
| Access.RevokedForever | crates/weld-access/src/lib.rs:64-66 | a permit that lost authorization never regains it, and its id is never issued again |
| Access.RevokeAllIsTotal | crates/weld-access/src/lib.rs:182-196 | no living permit is authorized after a general revocation |
| Access.AuthorizedMeansAllowed | crates/weld-access/src/lib.rs:182-207 | a permit authorized after a general revocation was issued after a later allowance |
| Access.RevokedStaysOut | crates/weld-access/src/lib.rs:161-207 | a revoked participant gets no permit before an allowance, although a general revocation empties the block list |
| Access.StatusIsComplete | crates/weld-access/src/lib.rs:139-158 | the status lists exactly the permits still held |
| Hoisting.Devices.RemoteActions | src/devices.rs:130-259 | what a batch asks for, reclaims and answers, and which endpoints are kept or retired |
| Hoisting.VerdictMeans | src/devices.rs:151-217 | when a request is refused, taken as done, or becomes a new one, and for which window, endpoint and surface |
| Hoisting.BatchKeepsExclusive | src/devices.rs:149-217 | no batch makes an endpoint show two windows or a client two endpoints, once its requests are sessions |
| Hoisting.EveryActionIsAnswered | src/devices.rs:151-243 | each action somebody waits for is answered once, in order |
| Hoisting.ReleaseReclaimsAll | src/devices.rs:220-231 | a release reclaims every session of the endpoint and no other |
| Hoisting.BatchReclaims | src/devices.rs:220-231 | a batch reclaims exactly the sessions of the endpoints it releases |
| Hoisting.ReleasesAreAnswered | src/devices.rs:220-231 | a release succeeds exactly if its session has an endpoint |
| Hoisting.EntryMeans | src/devices.rs:329-356 | which windows are listed, with which surface, and when they are available or hoisted here |
| Hoisting.AcceptedWasOffered | src/devices.rs:324-357 | every request of any batch is for a window listed as available to that endpoint in the same state |
| Hoisting.OfferedIsAccepted | src/devices.rs:160-205 | an offered window is accepted, anywhere in a batch, exactly if it carries no hoist mark, its client is not shown elsewhere, and the batch has not asked for that endpoint or client before |
| Hoisting.StaleMarkIsRefused | src/devices.rs:173-179 | a hoist mark without a session keeps a window on offer that is refused |
| ControlRequests.Control.Administer | src/remote_control/mod.rs:363-428 | what a batch answers at once, admits and revokes |
| ControlRequests.Control.Complete | src/remote_control/request.rs:69-95 | whether a waiting request is answered, how, and that it is then gone |
| ControlRequests.Control.Drop | src/remote_control/request.rs:56-67 | a dropped request is answered as cancelled unless it was answered before |
| ControlRequests.RequestIsJudged | src/remote_control/mod.rs:374-427 | when a request of a batch is answered at once, and how, or admitted unanswered, and what it does to grants |
| ControlRequests.BatchIsJudged | src/remote_control/mod.rs:374-427 | each request of a batch is judged after those before it |
| ControlRequests.GrantMeans | src/remote_control/request.rs:76-89 | the grant looked up is that of this very window |
| ControlRequests.RevokeMeans | src/remote_control/mod.rs:245-273 | revoking ends the grant of that window and no other |
| ControlRequests.ApplyMeans | src/remote_control/mod.rs:409-419 | an admitted request is put on its window, or fails with it |
| ControlRequests.CompletionMeans | src/remote_control/request.rs:69-95 | a waiting request fails if cancelled, late, or without the grant it was made under, and waits while that is unavailable |
| ControlRequests.StepConserves | src/remote_control/request.rs:41-95 | every operation keeps one reply or one waiting place for each consumed request |
| ControlRequests.ExactlyOneReply | src/remote_control/mod.rs:374-427 | over any run a consumed request has exactly one reply or waits with none |
| ControlRequests.SuccessIsEarned | src/remote_control/request.rs:76-89 | a completion answers with success exactly if it finds the same grant, active and available, neither cancelled nor late |
| ControlRequests.SuccessIsEarnedInRuns | src/remote_control/mod.rs:374-427 | over any run a request has a reply of success exactly if some step completed it that way, or changed its policy in time |
| ControlRequests.EarnedWasAdmitted | src/remote_control/mod.rs:385-405 | an input request that succeeds was admitted in an earlier batch, under the grant and deadline it succeeds with |
| ControlRequests.BatchAdmitsOnePerWindow | src/remote_control/mod.rs:385-405 | a batch admits at most one request for a window, and none for a window where one waits |
| ControlRequests.ApplyReplacesNothing | src/remote_control/mod.rs:409-419 | applying what a batch admitted pushes no waiting request out |
| LaunchPolicy.Launches.PrepareAll | src/control/launch.rs:162-228 | the policies and replies after one frame's messages |
| LaunchPolicy.EachIsJudged | src/control/launch.rs:172-227 | every message of a share in turn: what is refused, and what is prepared, inserted or taken away |
| LaunchPolicy.StepInv | src/control/launch.rs:46-97 | every step of any actor keeps the policy of each launcher that may yet have a process, and loses no preparation or cancellation |
| LaunchPolicy.PolicyBeforeProcess | src/control/launch.rs:53-97 | in every interleaving a process starts only after its policy was inserted, which then stays |
| LaunchPolicy.OnlyOwnCancelRemoves | src/control/launch.rs:80-91 | a policy goes away only through the cancellation of its own launcher |
| LaunchPolicy.ProcessesAreTold | src/control/launch.rs:49-49 | two processes never share a launch id, although ids may collide |
| LaunchPolicy.LimitHolds | src/control/launch.rs:183-186 | the policies never exceed their limit |
| LayerFocus.LayerFocus.PresentLayers | crates/weld-app/src/layer_shell.rs:97-161 | the exclusive layer and the one on demand after a presentation |
| LayerFocus.LayerFocus.PointerFocus | crates/weld-app/src/layer_shell.rs:231-263 | the layer on demand is exactly the one pressed, itself or through its popup, if it asks for that; focus is to be reasserted if it has a keyboard; nothing else changes |
| LayerFocus.PressIsAnswered | crates/weld-app/src/layer_shell.rs:251-295 | a press on a layer with a keyboard is answered by a focus action even if focus was there, for that layer if it asks on demand and none is exclusive; a press elsewhere gives focus back to the ordinary choice |
| LayerFocus.LayerFocus.ResolveFocusActions | crates/weld-app/src/layer_shell.rs:271-295 | the state and the actions sent after a batch |
| LayerFocus.LayersOrderFirst | crates/weld-app/src/layer_shell.rs:77-85 | layers order before stack positions, and top layers are above all windows, lower ones below |
| LayerFocus.OnDemandIsPresented | crates/weld-app/src/layer_shell.rs:139-155 | the exclusive layer is the first of the highest candidates, and focus on demand needs a presented layer with a keyboard |
| LayerFocus.PresentationArbitrates | crates/weld-app/src/layer_shell.rs:97-161 | which layer is exclusive after a presentation, and when focus on demand stays |
| LayerFocus.PressArbitrates | crates/weld-app/src/layer_shell.rs:231-263 | whom a press gives focus on demand, and when focus is reasserted |
| LayerFocus.BatchArbitrates | crates/weld-app/src/layer_shell.rs:271-295 | when a batch sends focus, and what its own focus actions change |
| LayerFocus.RestoreIsAnswered | crates/weld-app/src/layer_shell.rs:265-295 | focus that is to be restored is sent with the next batch |
| LayerFocus.ResolvesToOneFocus | crates/weld-app/src/layer_shell.rs:278-295 | other actions keep their order and at most one focus action follows, sent exactly if the choice changed or was asked for |
| LayerFocus.ResolvingSplits | crates/weld-app/src/layer_shell.rs:271-295 | a batch resolved in parts leads to the same state, and to the same last focus |
| LayerFocus.SentIsApplied | crates/weld-app/src/layer_shell.rs:271-295 | over any run the focus sent last is the one applied, and no other action is lost or reordered |
| LayerFocus.FocusIsArbitrated | crates/weld-app/src/layer_shell.rs:290-294 | after a resolve focus is with the exclusive layer, else on demand, else the latest ordinary choice |

## Left out

- NetworkSupervisor: its methods thread the state through values instead of updating an object, because the proofs about a run on the heap exceeded the solver's limits; nothing in the source aliases that state.
- NetworkProtocol: a host with a second interface of the client's name inside the namespace; JSON, file permissions, signals, the wall clock, lookup of tools, preflight of routes, and the notes left in the record about directories.
- Lease: the check that the hook runs in its own namespace and interface, and the supervisor's polling of the status.
- Stream: the methods of receiver and widget are taken apart into atomic steps on values, because two threads interleave within them; wrap-around of the 64-bit epoch; sizes and deadlines of the initial presentation, which here may hold back or release a frame at any time; the reset flag, which only decides when queued input is thrown away, and here may happen at any time; the pairing of each touch with an unrouted frame event.
- Stream.RoutedTouch: the region within the surface that a touch is routed to.
- StreamManager: pairing, connection retries and status texts; a connection here either keeps its instance, is lost, or is newly made in a poll.
- Accessibility: shortening of labels, choice of the window, and the single states, interfaces, bounds and actions of a node, which are one answer here; the graph and what its objects answer do not change during one traversal.
- RetainedUi: scheduling inside a frame, where a renderer start-up is taken to come before extraction; assets and resources other than as one part of the scene that is ready a frame late.
- PixelSnap: rounding of floating point numbers, non-finite values, and off-diagonal entries below the source's epsilon, which here make a transform not axis-aligned.
- Access: poisoned locks and wake-ups; a participant's length is counted in characters.
- Access.Authority.RevokeAll: one atomic step, although single permits may end or be dropped by their holders while it walks the registry; those only end more of them.
- Hoisting: the order of a published catalogue, titles, application ids and the decision to publish again.
- ControlRequests: what changing a policy does besides revoking a grant, and the attention shown for a waiting request.
- LaunchPolicy: workspaces, permits and audio of a launch, which only make a preparation fail; windows admitted under a policy.
- LayerFocus: mounting and despawning of presentations, and outputs beyond whether a layer is visible.
- Device probing, DMA-BUF import, encoding, UI code, mobile code and launch scripts are not part of this model.
