# Verified model of the mautrix-signal connector

A Dafny model of the parts of the Signal bridge's connector that keep state over long runs, with proofs of what holds
of them on every input, every run and every interleaving. `dafny verify dfyconfig.toml` checks all of it.

## What is modelled

**Group membership** (`GroupModel`, `GroupRoles`, `GroupSync`, `GroupAgreement`, `GroupReplay`, `GroupCatchUp`,
`GroupRuns`, `GroupSkips`, `GroupCache`, `MembershipActions`, `GroupActionRuns`). A group room can be brought up to date by a full
snapshot of the group or by replaying single changes. Both fill a member map in place, where later lists overwrite
earlier ones and phone numbers also stand for the accounts behind them. `CachedGroup.ApplyUpdate` is the repository's
own way of applying a change to a group, so it is what the two ways have to agree about. They do agree, **exactly** if
nobody is removed and added as a pending or requesting member, or promoted as a phone number and banned, by the same
change (`AgreeExactly`, `IncrementalEqualsFull`). From there the proofs go on to whole histories, to catching up
through a server's history pages, and to whole runs of events. A change on a page that cannot be converted is passed
over for good if a later one can be, which goes wrong for some history exactly in that case (`SkippingExactly`).

**Calls** (`CallMachine`, `CallLife`, `CallSlot`, `CallLegs`, `CallIce`, `CallQueue`, `CallOrigins`, `CallHangups`,
`CallBusy`, `CallSolo`, `CallPaths`, `CallWitnesses`, `CallKeyframes`). The call bridge is a set of goroutines over one call slot, with a lock per session and a once-only
`end`. Every critical section and every call that can fail is one atomic step, a thread is a program counter, and a
run is any list of thread starts and steps in any order. The slot, the media legs and the ICE candidates each have an
invariant over all runs, and so have the devices of a call, which come from messages about that very call
(`DevicesAreGenuine`), and the hangups, which go to Signal exactly if it has heard of the call (`HangupsExactly`). That
media legs are closed at the end of a call is false for outgoing calls and for answered
ones: `OutgoingLegLeaks` and `AnsweringLegLeaks` are runs that leak one, and `LegsClosedExactly` says which legs do.
Nor does an answered call outlive its ring timer (`AnsweredCallTimesOut`), and an offer that arrives twice can be told
it is busy with itself (`BusyWithItself`).

**Edits** (`EditTable`, `EditChains`). The message table is rewritten in place by edits from both sides. For messages
with one part it always renders one chain of IDs for each message, which is defined without the table. Replays on
messages with several parts can hit another part, and `ReplayExactly` says when.

**Chat settings** (`ChatSettings`, `SettingsSync`, `SettingsRuns`). Only differences are sent to Matrix, and snapshots
without any are not stored. Matrix still converges to the last snapshot under a moving clock. A resync and a write
from Matrix store settings they have not sent; `ResyncExactly`, `MuteWriteExactly`, `UnreadWriteExactly` and
`TagWriteExactly` say when that goes well, and `InSyncThroughoutExactly` says it for runs that mix all of these.

**Ordering and timing** (`BridgeState`, `StreamOrder`, `Transactions`, `Receipts`, `Backoff`). The debounce loop with
its peek slot refines a two-state automaton; backfill squeezes outgoing messages between incoming ones; transaction
IDs never repeat; receipts are grouped by room; the reconnect delay is bounded as long as its shift fits.

Code that updates things in place is a class or a method with loops, proved against a function of the old state. The
call bridge is the exception, since its point is how steps of different goroutines interleave.

## Assumptions about code outside the repository

- `ChatMemberMap.Set` overwrites an entry and `Add` only fills a missing one. A full member list makes everybody else
  leave. `PrevMembership` is a guard on the current membership. `ProcessChatInfoChange` and `UpdateInfo` run the extra
  updaters.
- The server's history pages and group snapshots are truthful, but pages may be short and may repeat the revision
  asked for, and requests may fail (`GroupRuns.Truthful`). Which changes can be converted is left open. A snapshot is
  taken not to be older than the portal, without which the result is false (`SnapshotExactly`,
  `StaleSnapshotEmptiesRoom`).
- A queued event is processed before the next snapshot is looked at.
- After an edit the library stores the changed row, stub rows are unique for an ID and have no Matrix event, and the
  rows of a message come in part order.
- The Matrix times for an endless mute and for no mute are parameters; the latter is not after the current time.

## Where the code does less than its comments say

The model follows the code.

- Replayed edits are said to be dropped because of the stub rows (pkg/connector/handlesignal.go:495-497). With several
  live parts, or with their target's own timestamp, they are not (`ReplayExactly`).
- Outgoing stream orders are said to be lower than the next incoming one (pkg/connector/backfill.go:136). Without room
  for them they are not (`SqueezedExactly`).
- What is stored after a write from Matrix is said not to be a change to bridge back
  (pkg/connector/handlechatsettings.go:73). It can hold another change that was never bridged, or lack the write itself
  (`MuteWriteExactly`, `StaleCacheIsStored`).
- Leaving out default settings is meant for creating rooms (pkg/connector/chatsettings.go:103-104), but resyncs use it
  too, where it leaves an old mute or tag in place (`ResyncExactly`).

## Model

| member | source | states |
|---|---|---|
| `GroupModel.CachedGroup.ApplyUpdate` | pkg/signalmeow/groupcache.go:183-345 | Only the direct successor of the cached revision is applied, older changes are ignored, and a gap or endorsements that cannot be received evict; the new lists, read as sets, are the set-level effect of the change |
| `GroupModel.CachedGroup.Put` | pkg/signalmeow/groupcache.go:148-181 | A fetched group replaces the entry unless a newer one is there or its endorsements cannot be received |
| `GroupModel.CachedGroup.Retrieve` | pkg/signalmeow/groups.go:724-739 | A usable cached group that is new enough is served and stays; otherwise the fetched one is put into the cache, and what the cache then holds is served if it is usable; a failed fetch changes nothing |
| `GroupCache.CacheFollowsHistory` | pkg/signalmeow/groupcache.go:148-345 | Over any run of real changes and groups in any order, stale ones, gaps and failures included, the cache holds nothing or exactly the group of its entry's revision |
| `GroupCache.CacheNeverGoesBack` | pkg/signalmeow/groupcache.go:148-205 | The revision of an entry never drops, and after a group with valid endorsements was put in, the entry is as new as that group |
| `GroupCache.RetrieveExactly` | pkg/signalmeow/groups.go:662-739 | A served group is always a real one, and as new as asked for if and only if it is not an old entry that the fetched group could not replace |
| `GroupCache.StaleSnapshotEmptiesRoom` | pkg/signalmeow/groups.go:677-739 | A case where an old entry is served to a portal that is further on, and a member disappears from its room |
| `GroupModel.PromoteAll` | pkg/signalmeow/groupcache.go:208-231 | Promoted invitees leave the pending list and join the members, first by account, then by phone number and account |
| `GroupModel.AdmitAll` | pkg/signalmeow/groupcache.go:239-254 | Admitted requesters leave the requesting list and join the members with their role |
| `GroupModel.ChangeRoles` | pkg/signalmeow/groupcache.go:271-273 | Each role change reaches the first entry of its member |
| `GroupModel.NextGroupSets` | pkg/signalmeow/groupcache.go:207-289 | The list-by-list update equals one set-level update, also with phone numbers resolved to accounts, if aliases are consistent with the group |
| `GroupRoles.FirstEntryChanges` | pkg/signalmeow/groups.go:124-131 | A role change changes exactly the first entry of its account, and only its role |
| `GroupRoles.RolesAfter` | pkg/signalmeow/groupcache.go:207-289 | After any change, a member who is not deleted has the role of the last role change naming them, or else the role they had or came in with: the default one if promoted, and the given one if admitted or added |
| `GroupRoles.PendingAfter` | pkg/signalmeow/groupcache.go:207-236 | Exactly the old and new invitees that are neither promoted nor deleted are pending, each with the role they were invited with |
| `GroupSync.SetAll` | pkg/connector/groupinfo.go:283-369 | The loop over one list writes its rows in order, resolving phone numbers where the list does |
| `GroupSync.WrapGroupInfo` | pkg/connector/groupinfo.go:126-150 | The four lists of a group fill the full member map in order |
| `GroupSync.GroupChangeToMemberChanges` | pkg/connector/groupinfo.go:282-369 | The twelve lists of a change fill the change map in order |
| `GroupRoles.LastRowWins` | pkg/connector/groupinfo.go:283-385 | The last row that names a user decides their whole entry, power level included |
| `GroupRoles.PowerExactly` | pkg/connector/groupinfo.go:40-52 | Administrators get power level 50 and everybody else 0 |
| `GroupRoles.FullListPower` | pkg/connector/groupinfo.go:126-150 | In a full list a member who is not banned gets the power level of their last entry |
| `GroupRoles.FullListInvitePower` | pkg/connector/groupinfo.go:126-150 | An invitee who is neither a member nor banned gets the power level of their last invite |
| `GroupRoles.RoleChangePower` | pkg/connector/groupinfo.go:363-369 | In any change, the last role change of an account decides its power level |
| `GroupRoles.AdditionPower` | pkg/connector/groupinfo.go:356-369 | So does adding the account if no role change names it |
| `GroupRoles.AdmissionPower` | pkg/connector/groupinfo.go:349-369 | Admitting a requester sets no power level, whatever the role, unless they are also added or given a role |
| `GroupRoles.AdmittedAdministratorHasNoPower` | pkg/connector/groupinfo.go:349-355 | A requester admitted as an administrator has power level 50 in the full list and none in the change |
| `GroupSync.SyncTwice` | pkg/connector/groupinfo.go:282-369 | Processing any member changes twice in a row is the same as processing them once |
| `GroupSync.Layer` | pkg/connector/groupinfo.go:376-385 | A list overwrites exactly the users it names itself, and writes to the accounts behind its phone numbers that have no entry yet |
| `GroupReplay.ChangeMapEffects` | pkg/connector/groupinfo.go:282-369 | For any change whatsoever, what the change map does to a user is decided by the last list that writes to them, where an account that has an entry keeps it when a later list has its phone number |
| `GroupReplay.UnshadowedEffects` | pkg/connector/groupinfo.go:282-369 | If no account is kept from a later list like that, the last list naming the user decides |
| `GroupReplay.FullMapView` | pkg/connector/groupinfo.go:126-150 | What the full map gives a user is their place in the group's lists |
| `GroupAgreement.AgreeExactly` | pkg/connector/groupinfo.go:282-369 | For a well-formed group and a fitting change, replay and snapshot agree about a user if and only if no later list overwrites what the change adds for them |
| `GroupAgreement.GuardsMatch` | pkg/connector/groupinfo.go:283-355 | In a room that shows the group before the change, the guard on a user matches if and only if the user is not invited while already being invited |
| `GroupReplay.IncrementalEqualsFull` | pkg/connector/groupinfo.go:282-369 | From a room showing the group, applying the change map gives the room of a full sync of the changed group if and only if nobody is overwritten |
| `GroupReplay.UnbanAndInviteDisagrees` | pkg/connector/groupinfo.go:283-322 | Unbanning and inviting a user in one change is a case where the two ways differ |
| `GroupReplay.HistoryEqualsFull` | pkg/connector/groupinfo.go:282-369 | For any sound history, replaying all of it gives the room of a full sync of the last group |
| `GroupCatchUp.Portal.ProcessChatInfoChange` | pkg/connector/groupinfo.go:231-240 | The change is processed once and its revision kept if it is newer |
| `GroupCatchUp.Portal.UpdateInfo` | pkg/connector/groupinfo.go:108-150 | The room becomes the full sync and the revision is kept if it is newer |
| `GroupCatchUp.Portal.CatchUpGroup` | pkg/connector/groupinfo.go:405-443 | Terminates, and computes the fallback to a snapshot or the replay of the page up to the target |
| `GroupCatchUp.Portal.Handle` | pkg/connector/handlesignal.go:290-340 | An event catches up first, without underflow of the target, then applies its own change if it directly follows |
| `GroupCatchUp.CatchUpTarget` | pkg/connector/handlesignal.go:332-338 | The target never underflows and never exceeds the event's revision |
| `GroupCatchUp.RevisionNeverDrops` | pkg/connector/groupinfo.go:231-240 | Whatever an event says and the server answers, the revision never drops and nothing processed is undone |
| `GroupCatchUp.ReplayProcessesInOrder` | pkg/connector/groupinfo.go:428-441 | Exactly the convertible changes of a page up to the target are processed, once each and in order, and the room is their replay |
| `GroupRuns.ReplayFollows` | pkg/connector/groupinfo.go:428-441 | A page from the next revision on takes a synced portal to the target, to the first change that cannot be converted or to the end of the page, still synced, and each change is processed once and in order, if no later change can be converted |
| `GroupRuns.ReplayFollowsOverlap` | pkg/connector/groupinfo.go:420-441 | The same if the page repeats the change the portal is at, which is then processed once more before the rest if it can be converted |
| `GroupRuns.SnapshotExactly` | pkg/connector/groupinfo.go:414-421 | A snapshot leaves the portal synced if and only if it is not older than what the portal is at or makes no difference to the room |
| `GroupRuns.CatchUpFollows` | pkg/connector/groupinfo.go:405-443 | Catching up with truthful answers, by page or by snapshot, keeps the portal synced if no change is passed over for a later one |
| `GroupRuns.EventKeepsSync` | pkg/connector/handlesignal.go:290-340 | After any genuine event, under the same condition on its page, the room shows the group at the portal's revision |
| `GroupRuns.EventCatchesUp` | pkg/connector/handlesignal.go:299-338 | Any genuine event at a newer revision applies exactly the missed changes, once each and in order, after one the page repeats, up to its revision, or one less if it has change bytes, or before what the page lacks or cannot convert; its own change is applied if and only if it can be used and directly follows |
| `GroupRuns.EventTakesSnapshot` | pkg/connector/groupinfo.go:405-421 | An event that leaves a gap to a portal at revision 0, or to any portal if no page can be fetched, takes the portal to the revision of the snapshot, with the room of a full sync and nothing replayed, and then applies its own change if and only if it directly follows |
| `GroupRuns.EventWithoutAnswers` | pkg/connector/groupinfo.go:405-423 | If there is no snapshot either, the portal stays as it was, except for the event's own change if that directly follows |
| `GroupRuns.UnreadableChangeStopsShort` | pkg/connector/handlesignal.go:301-338 | An event whose change bytes cannot be decrypted leaves a portal one revision behind it as it was |
| `GroupRuns.RunKeepsSync` | pkg/connector/handlesignal.go:290-340 | Over any run of such events the room shows the group at the portal's revision, which never drops |
| `GroupSkips.TailIsHarmless` | pkg/connector/groupinfo.go:430-441 | If only the last changes looked at cannot be converted, catching up stops before them and the room is right |
| `GroupSkips.SkippedJoin` | pkg/connector/groupinfo.go:430-441 | For every page in which a change that cannot be converted comes before one that can, there is a history that leaves the room wrong |
| `GroupSkips.SkippedJoinExample` | pkg/connector/groupinfo.go:430-441 | A page with a join that cannot be converted and one more change is such a case |
| `GroupSkips.SkippingExactly` | pkg/connector/groupinfo.go:430-441 | Catching up through a page leaves the room right whatever the history was, if and only if the changes that cannot be converted are the last ones looked at |
| `GroupSkips.RepeatingSkippingExactly` | pkg/connector/groupinfo.go:424-441 | The same for a page that starts with the change the portal is at, whether that one can be converted or not |
| `MembershipActions.BuildGroupChange` | pkg/connector/handlematrix.go:511-593 | Exactly the supported actions build a change, with the lists of that action |
| `MembershipActions.BuiltChangeMapsBack` | pkg/connector/handlematrix.go:511-593 | Mapped back to the room, a built change gives the target the requested membership, guarded at most by where the action starts, and touches nobody else |
| `MembershipActions.ActionRoundTrip` | pkg/connector/handlematrix.go:511-593 | A built change fits the group it was built for, can be replayed without overwriting, and moves only the target |
| `GroupRoles.ActionGivesRole` | pkg/connector/handlematrix.go:511-593 | Inviting or admitting somebody who is no member gives them the role asked for in the changed group |
| `GroupRoles.BuiltInvitePower` | pkg/connector/handlematrix.go:511-593 | Mapped back to the room, inviting a phone number gives it the power level of its role |
| `MembershipActions.ActionAdoptsRevision` | pkg/connector/handlematrix.go:598-609 | Adopting the new revision after an action leaves the room right if and only if the skipped changes left everybody else as they were |
| `MembershipActions.SkippedJoinIsNeverShown` | pkg/connector/handlematrix.go:598-609 | A ban by a portal that has missed a join leaves the join out of the room |
| `GroupActionRuns.StepExactly` | pkg/connector/handlematrix.go:462-611 | An event or a membership action keeps the portal synced if and only if it is no action that skips a change to anybody else |
| `GroupActionRuns.SyncedThroughoutExactly` | pkg/connector/handlematrix.go:462-611 | Over any run that mixes events and actions, the room shows the group at the portal's revision at every point if and only if no action skipped a change to anybody else |
| `CallLife.Reachable` | pkg/connector/callbridging.go:163-234 | In every run the slot holds exactly the session that has not ended, which has a thread driving or ending it |
| `CallSlot.SlotChanges` | pkg/connector/callbridging.go:208-220 | The slot is only filled when empty, by a new session, and only emptied by the last step of the end of the session in it |
| `CallSlot.ReachesItsCallExactly` | pkg/connector/callbridging.go:544-574 | A candidate or an answer reaches a session if and only if a session of that peer and call has not ended, and for answers is an outgoing one answered by a known device |
| `CallSlot.OneInterval` | pkg/connector/callbridging.go:434-462 | A session holds the slot for one contiguous interval of the run |
| `CallSlot.SingleSlot` | pkg/connector/callbridging.go:977-1023 | In every run at most one session has not ended, and each side is hung up on at most once per session, in the end exactly if the first to enter end wanted it |
| `CallPaths.EndWaits` | pkg/connector/callbridging.go:977-1023 | In every run, a thread that called end returns only when the call has ended, its hangups are sent and the slot is free of it, whether it was the first to call or not |
| `CallHangups.FailsExactly` | pkg/connector/callbridging.go:252-281 | At every place, a thread goes on to end its call if and only if the step fails in the ways the code has |
| `CallHangups.HangupsExactly` | pkg/connector/callbridging.go:494-528 | In every run, a call ended by the thread that set it up timed out or failed, and Signal is hung up on if and only if it has heard of the call: always for incoming ones, and for outgoing ones if and only if the offer was sent; one ended by its answering thread failed, and both sides are hung up on |
| `CallSlot.NeverStranded` | pkg/connector/callbridging.go:219-233 | A session that has not ended always has a driver, and every run that steps the driver often enough, at most 17 times, ends the session and takes it out of the slot, whatever succeeds or fails and whatever other threads do in between |
| `CallSlot.ActionRank` | pkg/connector/callbridging.go:461-528 | No step of any thread moves a session away from its end, and each step of its driver moves it closer, on success and on failure |
| `CallLegs.Reachable` | pkg/connector/callbridging.go:252-270 | In every run every open leg is stored or held by the thread that is about to store or close it |
| `CallLegs.LegsClosedExactly` | pkg/connector/callbridging.go:1006-1016 | When a session has ended and nobody holds a leg, a leg is open if and only if it was stored after end had read the legs; the Matrix leg of an incoming call never is |
| `CallPaths.RingsAlone` | pkg/connector/callbridging.go:252-281 | Undisturbed, ringing creates and stores an open Matrix leg, sends the invite and arms the timer, and changes nothing else |
| `CallPaths.RingsTooLate` | pkg/connector/callbridging.go:259-264 | Ringing for a call that is over closes the new leg and ends the call |
| `CallPaths.OfferFails` | pkg/connector/callbridging.go:267-270 | An offer that fails closes the stored leg and ends the call |
| `CallPaths.SetsUpAlone` | pkg/connector/callbridging.go:461-528 | Undisturbed, setting up an outgoing call stores both legs and arms the timer, and changes nothing else |
| `CallPaths.StopsWhenOver` | pkg/connector/callbridging.go:568-641 | An answer to a call that is over or answered does nothing, and set-up and timer of a call that is over stop |
| `CallWitnesses.OutgoingLegLeaks` | pkg/connector/callbridging.go:463-474 | A run in which the bridge is stopped between creating and storing the Matrix leg of an outgoing call leaves it open for good |
| `CallWitnesses.AnsweringLegLeaks` | pkg/connector/callbridging.go:667-683 | A run in which the bridge is stopped between creating and storing the Signal leg of an answered call leaves that one open for good |
| `CallWitnesses.AnsweredCallTimesOut` | pkg/connector/callbridging.go:228-233 | A run in which a call that has been answered and connected is ended by its ring timer |
| `CallWitnesses.TimerEndsExactly` | pkg/connector/callbridging.go:228-233 | In every run a timer that fires and goes on at once is the one that ends its call, answered or not, if and only if nobody had entered end before; from then on the call has timed out and every run that steps it seven times more ends it |
| `CallBusy.OwnBusyExactly` | pkg/connector/callbridging.go:164-218 | In every run a Busy reply goes to the call in the slot itself if and only if it is sent by the second look and the call looked for is the one in the slot |
| `CallBusy.BusyExactly` | pkg/connector/callbridging.go:164-218 | Busy goes to exactly the call that was looked for: by the first look if and only if another call is in the slot, and by the second if and only if the slot is taken at all |
| `CallPaths.GivesUp` | pkg/connector/callbridging.go:163-206 | A call that finds the slot taken or cannot be prepared leaves everything as it was |
| `CallBusy.OwnBusyRaced` | pkg/connector/callbridging.go:164-218 | And then the thread that sends it had found the slot empty, for the same call, before the session in it was installed |
| `CallBusy.BusyWithItself` | pkg/connector/callbridging.go:164-218 | A run in which the same offer arrives twice and is answered with Busy |
| `CallIce.Reachable` | pkg/connector/callbridging.go:543-602 | In every run every candidate is in at most one place, and one from the chosen device is in exactly one unless the call is ending |
| `CallIce.HandedOnce` | pkg/connector/callbridging.go:589-596 | In every run no candidate is handed over twice, and none that did not arrive or came from another device |
| `CallIce.NoneLost` | pkg/connector/callbridging.go:543-602 | Once the threads are through and the call is not ending, exactly the candidates from the chosen device have been handed over, each once, whether they came before or after the answer |
| `CallIce.AllWait` | pkg/connector/callbridging.go:555-560 | Before an outgoing call is answered every candidate is queued once and none is handed over |
| `CallIce.ChosenOnce` | pkg/connector/callbridging.go:576-584 | The chosen device and the answering thread never change once set |
| `CallOrigins.DevicesAreGenuine` | pkg/connector/callbridging.go:543-584 | In every run the device of a call is that of the very offer or answer that its starting or answering thread was started with, every candidate carries the device of its own message, and all these messages are from the peer and about the call of the session |
| `CallQueue.QueuedInOrder` | pkg/connector/callbridging.go:543-562 | In every run candidates wait in the order in which they arrived: all of them for an outgoing call, and those of the caller's device for an incoming one |
| `CallQueue.DrainsInOrder` | pkg/connector/callbridging.go:589-596 | Working through a queue hands over exactly the candidates of the chosen device, in order |
| `CallPaths.RemoteAnswerAlone` | pkg/connector/callbridging.go:568-602 | Undisturbed, a remote answer chooses its device, empties the queue, hands over that device's candidates in order, and connects |
| `CallPaths.MatrixAnswerAlone` | pkg/connector/callbridging.go:633-691 | Undisturbed, an answer in Matrix creates and stores the Signal leg, empties the queue, hands over the candidates of the caller's device in order, and connects |
| `CallIce.OneAnswer` | pkg/connector/callbridging.go:633-641 | At most one thread gets past the answering flag |
| `CallIce.QueueStaysDrained` | pkg/connector/callbridging.go:679-691 | In every run nothing is queued for a call that has been answered and has its Signal leg, unless it is ending |
| `CallKeyframes.VideoRelay.RequestMatrixKeyframe` | pkg/connector/callbridging.go:926-936 | A request is sent at once if the track is known, and noted otherwise |
| `CallKeyframes.VideoRelay.TrackFound` | pkg/connector/callbridging.go:869-877 | The track becomes known, and a noted request is sent and forgotten |
| `CallKeyframes.NoRequestLost` | pkg/connector/callbridging.go:869-936 | All requests before the track are covered by one when it appears, and each later one is sent once |
| `CallKeyframes.KnownMeansNothingPending` | pkg/connector/callbridging.go:869-936 | In every run a known track means no noted request |
| `EditTable.Messages.FindEditPart` | pkg/connector/handlesignal.go:514-529 | Finds the last part that is not a stub, and nothing for view-once media |
| `EditTable.Messages.Rename` | pkg/connector/handlesignal.go:535-545 | The row moves to the new ID with its count increased, leaving a stub if the ID changed |
| `EditTable.Messages.HandleSignalEdit` | pkg/connector/handlesignal.go:509-548 | The table after an edit from Signal, and whether it was applied |
| `EditTable.Messages.HandleMatrixEdit` | pkg/connector/handlematrix.go:183-253 | The table after an edit from Matrix, which is refused for view-once media, for others' messages and if sending fails |
| `EditTable.ReplayExactly` | pkg/connector/handlesignal.go:523-545 | Receiving an applied edit again changes nothing if and only if it has a timestamp of its own and its target had exactly one live part |
| `EditTable.ReplayHitsAnotherPart` | pkg/connector/handlesignal.go:523-545 | On a message with two parts the replay renames the other part |
| `EditTable.ReplayCountsAgain` | pkg/connector/handlesignal.go:540-545 | An edit with its target's timestamp is counted every time |
| `EditChains.TargetExactly` | pkg/connector/handlesignal.go:410-438 | The table applies an edit if and only if it names the current ID of a chain and is allowed |
| `EditChains.TableRendersChains` | pkg/connector/handlesignal.go:509-548 | After any mix of messages and edits there is one live row at the latest ID of each chain, with an edit count equal to its stubs, and a stub at every superseded ID, and nothing else |
| `EditChains.SupersededIgnored` | pkg/connector/handlesignal.go:523-526 | An edit aimed at a superseded ID changes nothing |
| `EditChains.ReplayIgnored` | pkg/connector/handlesignal.go:493-507 | An edit that was applied at any time changes nothing when it is received again at any later time |
| `ChatSettings.EqualMutesStayEqual` | pkg/connector/chatsettings.go:55-63 | Effective mutes that are equal now are equal at every later time |
| `ChatSettings.SentMuteExactly` | pkg/connector/chatsettings.go:65-72 | A mute sent to Matrix means the same as in Signal at every later time, if and only if its end is not the time that stands for no end |
| `ChatSettings.MuteRoundTripExactly` | pkg/connector/handlechatsettings.go:52-60 | Converting a mute to Matrix and back keeps its effect at every later time, if and only if the same holds |
| `ChatSettings.TagsToSettingsChange` | pkg/connector/handlechatsettings.go:104-129 | Only added and removed tags count, and pinning wins |
| `ChatSettings.TwoTagsExactly` | pkg/connector/handlechatsettings.go:104-129 | With two tags, an added one decides both flags, the pinned tag before the other; otherwise exactly the flags of removed tags are taken away |
| `ChatSettings.OneTagExactly` | pkg/connector/handlechatsettings.go:104-129 | With one tag in use its flag follows the tag and nothing else changes; with none there is never a change |
| `ChatSettings.SameTagExactly` | pkg/connector/handlechatsettings.go:104-129 | If both are the same tag, the pinned flag follows it and adding it unarchives the chat |
| `ChatSettings.NeverPinnedAndArchived` | pkg/connector/handlechatsettings.go:119-124 | With both tags in use no tag change leaves a chat pinned and archived, or touches anything else |
| `ChatSettings.TagChangeMatches` | pkg/connector/handlechatsettings.go:104-129 | Settings that matched the old tags match the new ones after the change, and ask for the tag that is now set |
| `SettingsSync.PortalSettings.BridgeChatSettings` | pkg/connector/chatsettings.go:159-215 | What is stored and shown after a snapshot, with either event failing to be queued |
| `SettingsSync.PortalSettings.AddChatSettings` | pkg/connector/chatsettings.go:131-149 | What is stored and shown after a resync |
| `SettingsSync.PortalSettings.UpdateSettings` | pkg/connector/chatsettings.go:119-128 | The given settings are stored and nothing else changes |
| `SettingsSync.PortalSettings.UpdateChatSettings` | pkg/connector/handlechatsettings.go:62-83 | What the cache says afterwards is stored if Signal accepted the change, with or without the parts of the change that have not come to the cache, and nothing if the cache does not know the chat |
| `SettingsSync.ShownStaysShown` | pkg/connector/chatsettings.go:55-72 | What Matrix shows and what Signal means by some settings expire together |
| `SettingsSync.BridgeKeepsSync` | pkg/connector/chatsettings.go:83-101 | A snapshot keeps Matrix and the stored settings in sync, and is shown if it was queued or had nothing to send |
| `SettingsSync.OnlyDifferencesAreSent` | pkg/connector/chatsettings.go:159-215 | A snapshot that cannot be queued or differs in nothing shown changes nothing at all, any other is stored, and a mute, tag or unread flag that does not differ is not sent |
| `SettingsSync.Converges` | pkg/connector/chatsettings.go:159-215 | After any snapshots with a clock that does not go back, whichever failed, Matrix shows the mute and tag of the last one from then on if it was queued or had nothing to send |
| `SettingsSync.RunKeepsSync` | pkg/connector/chatsettings.go:159-215 | Over any such run Matrix shows the mute and tag that are stored |
| `SettingsSync.UnreadExactly` | pkg/connector/chatsettings.go:200-213 | When the unread flag is in sync after a snapshot, given that the second queueing result is ignored |
| `SettingsSync.UnreadConverges` | pkg/connector/chatsettings.go:200-213 | The unread flag converges to the last queued snapshot if it is never lost |
| `SettingsSync.ResyncExactly` | pkg/connector/chatsettings.go:103-149 | A resync keeps Matrix in sync if and only if it does not have to take a mute or a tag away |
| `SettingsSync.ResyncLeavesDefaults` | pkg/connector/chatsettings.go:103-149 | A resync leaves a mute or tag in Matrix alone if Signal has none, never shows an unread flag, and stores the cached settings with the unread flag that was stored |
| `SettingsSync.ResyncHides` | pkg/connector/chatsettings.go:136-148 | After a resync the same settings never lead to a mute or tag being sent |
| `SettingsSync.ResyncKeepsOldMute` | pkg/connector/chatsettings.go:103-117 | A chat that was unmuted in Signal stays muted in Matrix after a resync |
| `SettingsSync.ResyncKeepsUnread` | pkg/connector/chatsettings.go:139-147 | A resync neither breaks nor repairs the unread flag |
| `SettingsSync.MuteWriteExactly` | pkg/connector/handlechatsettings.go:62-88 | After muting in Matrix everything is in sync if and only if the cache held no other difference and the mute has come to it or was there already; with nothing stored, if and only if the mute is no change |
| `SettingsSync.UnreadWriteExactly` | pkg/connector/handlechatsettings.go:62-92 | The same for the unread flag |
| `SettingsSync.TagWriteExactly` | pkg/connector/handlechatsettings.go:62-100 | The same for tags, whichever are in use: in sync if and only if the cache holds no other difference and its flags, with the parts of the change that have come to it, ask for the tag that is set; if the cache does not know the chat, if and only if the stored flags ask for it |
| `SettingsSync.LandedTagsExactly` | pkg/connector/handlechatsettings.go:104-129 | If all of a change has come to the cache, the flags ask for the tag that is set, if and only if removing one of two tags does not leave the other flag set |
| `SettingsRuns.StepExactly` | pkg/connector/handlechatsettings.go:62-100 | A snapshot, a resync or a change made in Matrix, accepted or not, keeps everything in sync if and only if it loses nothing in one of the ways above |
| `SettingsRuns.InSyncThroughoutExactly` | pkg/connector/chatsettings.go:131-215 | Over any run that mixes all of these, Matrix shows what is stored at every point if and only if every event is harmless |
| `SettingsRuns.WritesHideTags` | pkg/connector/handlechatsettings.go:73-81 | Muting a chat or marking it unread in Matrix stores a pin from the cache that was never shown |
| `SettingsRuns.UnpinningHidesArchive` | pkg/connector/handlechatsettings.go:73-81 | Unpinning a chat in Matrix stores that it is archived without showing it |
| `SettingsRuns.StaleCacheIsStored` | pkg/signalmeow/storagewrite.go:519-538 | Muting a chat in Matrix that the phone has just muted stores the unmuted settings of a stale cache |
| `SettingsRuns.UnreadFlagLost` | pkg/connector/chatsettings.go:200-213 | An unread flag that could not be queued is stored as shown, and the same settings are not sent again |
| `BridgeState.BridgeStateLoop` | pkg/connector/client.go:119-227 | The loop with its peek slot outputs what the two-state automaton does, on every trace |
| `BridgeState.PeekLoop` | pkg/connector/client.go:155-177 | The inner loop ends with the channel, with the timer, or with a status of another kind |
| `BridgeState.AllHandledInOrder` | pkg/connector/client.go:119-227 | Every status other than a disconnect is handled exactly once, in order of arrival |
| `BridgeState.WindowExactly` | pkg/connector/client.go:144-177 | A disconnect is waiting if and only if the inputs since it are all disconnects, and its error is that of the first |
| `BridgeState.ReportedExactly` | pkg/connector/client.go:178-193 | A disconnect is reported if and only if its window is ended by the timer, or by an empty status the timer overtook, once and with the error of the status that opened it |
| `StreamOrder.FindNextStreamOrder` | pkg/connector/backfill.go:115-123 | The server time of the next incoming item, or the current time |
| `StreamOrder.StreamOrders` | pkg/connector/backfill.go:124-144 | The loop gives every item its stream order |
| `StreamOrder.OrderExactly` | pkg/connector/backfill.go:124-144 | An incoming item keeps its server time and an item of another kind gets none; an outgoing one keeps its own time if and only if that is strictly between the incoming items around it, and is moved right next to one of them otherwise |
| `StreamOrder.PreviousIs` | pkg/connector/backfill.go:114-144 | The time an outgoing item has to follow is that of the nearest incoming item before it |
| `StreamOrder.NextIs` | pkg/connector/backfill.go:114-144 | The time it has to precede is that of the nearest incoming item after it |
| `StreamOrder.Ends` | pkg/connector/backfill.go:114-144 | Before the first incoming item the former is zero, and after the last one the latter is the current time |
| `StreamOrder.SqueezedExactly` | pkg/connector/backfill.go:134-138 | An outgoing item comes after the previous incoming one, and before the next one if and only if there is room |
| `StreamOrder.NoRoomToSqueeze` | pkg/connector/backfill.go:134-138 | Between incoming items one millisecond apart an outgoing one gets the order of the second |
| `StreamOrder.OrdersSorted` | pkg/connector/backfill.go:114-144 | With room between incoming items stream orders never decrease, and are strict unless both items are outgoing |
| `Transactions.Connector.GenerateTransactionID` | pkg/connector/connector.go:142-147 | The new ID is the current time or one more than the last, printed in decimal |
| `Transactions.IdsIncrease` | pkg/connector/connector.go:142-147 | Whatever the clock does, IDs are strictly increasing |
| `Transactions.LeadBounded` | pkg/connector/connector.go:142-147 | After k calls the last ID leads the highest reading by less than k if and only if some reading was not zero, and never by more than k |
| `Transactions.DecimalRoundTrip` | pkg/connector/handlematrix.go:113-118 | Printing and parsing recovers every 64-bit value |
| `Transactions.ParseExactly` | pkg/connector/handlematrix.go:113-118 | Exactly the non-empty strings of digits below 2^64 are parsed, as the number they stand for |
| `Transactions.TimestampExactly` | pkg/connector/handlematrix.go:108-120 | A relayed message gets the current time, and another one the number in its transaction ID, or its event's time if and only if that is no such number |
| `Transactions.TimestampsDistinct` | pkg/connector/handlematrix.go:108-120 | Messages that are not relayed get distinct timestamps in the order of their IDs |
| `Receipts.ConvertReceipts` | pkg/connector/handlesignal.go:605-628 | Each room with messages has exactly its own, in input order, and its last ID is the first message as late as any of them |
| `Receipts.InInputOrder` | pkg/connector/handlesignal.go:605-628 | The messages of a room are those at increasing places of the input, and all of them |
| `Receipts.EveryMessageOnce` | pkg/connector/handlesignal.go:605-628 | A message is listed in its room as often as it was found |
| `Backoff.DelayExactly` | pkg/connector/client.go:329-333 | The delay is the smaller of 2^(n+1) and 150 seconds if and only if n is at most 61, reaches 150 from n = 7, and is not positive from n = 62 on |
| `Backoff.DelayGrows` | pkg/connector/client.go:329-333 | The delay never decreases up to n = 61 |

## Left out

- Whether replay and snapshot agree about power levels: the promote lists set none, so they need not (`AdmittedAdministratorHasNoPower`).
- Titles, avatars, descriptions, timers, access control and join rules of groups: simple overwrites.
- `GroupActionRuns.SyncedThroughoutExactly`: without aliases of phone numbers.
- Groups that were handed out and then changed in place by the cache: entries are values.
- `GroupRuns.RunKeepsSync`: needs that no change of a page is passed over for a later one, without which it is false (`SkippingExactly`).
- Choosing the role in `HandleMatrixMembership`, and sending the built change.
- Media transport, SDP, TURN servers, identity keys and the JSON of call events: calls that may fail.
- `CallIce.Reachable`, `CallIce.HandedOnce`, `CallIce.ChosenOnce` and `CallIce.QueueStaysDrained`: like `CallIce.NoneLost`, for sessions whose caller's device is known.
- `CallIce.NoneLost`: for an incoming call this needs the caller's device to be known, since the code compares queued candidates with device zero otherwise.
- Which goroutines may call `end` or answer in Matrix: any may at any time, which allows more runs than the code has.
- `EditChains.TableRendersChains`: needs edits that are applied to have new timestamps; an edit that reuses one is only covered by `EditTable`.
- Rejecting a Matrix call while the slot is taken, and whether Busy replies arrive.
- Database errors while an edit is stored: the store is taken to succeed.
- Reactions, deletions and other targets of `GetTargetMessage`.
- `SettingsSync.Converges`: needs mutes that do not end at the very time that stands for no end in Matrix.
- `StreamOrder.OrdersSorted`: 64-bit limits of server times are not modelled.
- Read flags, paging and deletion in backfill; the call log; login, chat sync, bios, pins, polls, albums and direct media.
- libsignal and everything else behind the foreign function interface.
