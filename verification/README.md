# DMPC: channels, locks, statuses and users

DMPC carries operations of users between nodes and claims that "state is eventually consistent regardless
of the order operations come in" (`README.md:6`). This project models the five components that claim rests
on, and proves what they keep over every run, where the claim holds, and the exact condition where it does
not.

- **Channels** (`ChannelRecord`, `ChannelServer`, `ChannelRuns`, `ChannelConvergence`, `ChannelBoundary`,
  `Replica`). A channel is buffered, open or closed; the three daemons that serve it run one request at a
  time under its lock. `ChannelServer.Step` says what one request does to the channel, its buffer, its
  listeners and the events they are sent, and the classes are proved against it. Over all runs: the state
  only moves forward and every further closing strictly lowers (time, issuer); listeners, permissions and
  events agree; what is fed back is given exactly, also after an opening cut short; an early subscriber can
  rebuild the message list from the events; and the closing time does not depend on the order of requests.
  For the stored messages and the closer it is proved exactly when they depend on it.
- **Locks** (`LockNeeds`, `Deadlock`, `ClaimsDeadlock`, `UsersDeadlock`). Needs are put in a canonical form, taken
  all or nothing and given back in reverse. A party runs through a program that takes and drops locks one by one.
  Any number of requests never deadlock if every id is asked for in one mode only, or every request asks for one
  mode only. Parties that read and drop in any order and may then write deadlock in some schedule if and only if
  one of them ends keeping what another one is to write, or there are places for all of them from which following
  who waits for whom comes round.
- **Statuses** (`Status`, `StatusRuns`). An update finds or becomes the record of its ticket in one step and
  applies itself in another; listeners come in between. In every interleaving a listener is sent rising
  statuses, at most as many as its buffer holds, the last one done, and is closed right then. A closed
  listener holds the final status, exactly unless it was closed by a success and a failure arrived.
- **Users** (`UserRecord`, `UserConvergence`, `UserServer`, `UserLocks`, `UserTasks`, `SplitReads`, `UserOrder`,
  `NewUsers`). Every field is a register that keeps its newest write; registers, and the timestamps over groups of
  them, converge exactly when the newest changes agree. Updates that must be granted converge, as long as none
  changes the say of a certifier, exactly when the newest of those granted at the start agree; for any list of
  updates, and for any two, the exact conditions are proved as well. Requests leave every lock as it was, except
  exactly two kinds of read. A handler makes its requests one after another and keeps between them what they do
  not give back: the exact condition for a deadlock is proved for any list of handlers with updates, reads, split
  reads and creations, every request being taken to find its records. For requests that give back all they took
  it only asks which update leads to which.
- **Decryptor and executor** (`Decryptor`, `Executor`, `MessageCounts`, `Pipeline`, `PipelineLosses`,
  `PipelineConvergence`, `EarlyMessage`). An operation enters the decryptor at most twice; every handler asks
  once to give back each lock it took and reports one final status, whatever its subsystems answer. `Pipeline` puts
  decryptor, executor, buffer and channel together, with every outcome of decryption and of each hand-over
  left open: in any interleaving each message is in exactly one place, and an open channel at rest was given
  exactly the messages that arrived if and only if no move was one of the losing kinds. Two nodes that saw the
  same ones end up alike exactly when the same messages came too early.

A class holds the fields its source counterpart updates; its methods promise the new state as a function of
the old one. Times are integers and 0 is the zero time. What the environment decides (answers of other
components, whether keys fit, the order a sort leaves ties in) are arguments that every theorem quantifies
over.

Where the code does not do what its documentation says, the model follows the code:

- "Eventually consistent regardless of the order" fails for a message that can be decrypted before the
  channel opens, because it needs no key or the key is known already: the buffered channel drops it
  (`EarlyMessage.EarlyMessageIsLost`). It fails for a message stamped exactly at the closing time. Exact
  conditions: `ChannelBoundary.MessagesConvergeExactly`, `ChannelBoundary.AnyOrderConvergesExactly`,
  `PipelineLosses.MessagesGetThroughExactly`, `PipelineConvergence.PipelinesConvergeExactly`.
- It fails for the issuer of tied early closures (`ChannelConvergence.BestWinsExactlyWhenSettled`,
  `ChannelConvergence.ClosersConvergeExactly`), for the aggregate timestamps of a user record
  (`UserConvergence.AggregateConvergesExactly`), for an update that comes before the creation of its user or of
  a signer (`NewUsers.CreationsConvergeExactly`) and for one that comes before the update that lets its certifier
  make it: it is refused, and lost however new it is (`UserOrder.RefusedUpdateIsLost`,
  `UserOrder.TwoUpdatesConvergeExactly`, `UserOrder.AnyUpdatesConvergeExactly`).
- After an opening whose feeding was cut short strangers may listen, operations are stranded and early
  closures are never applied (`ChannelRuns.StrangersAreToldExactly`, `ChannelRuns.AllIsFedExactly`,
  `ChannelConvergence.CutShortClosesAlikeExactly`).
- Sanitized needs are said to prevent deadlocks (`core/sync.go:76`). They do under the condition above. Handlers with
  updates of user records need not meet it: whole requests deadlock exactly in cycles of updates
  (`SplitReads.WholeRequestsDeadlockExactly`), and locks kept between the halves of a split read add further
  deadlocks (`UserTasks.TasksDeadlockExactly`, `SplitReads.EntangledDeadlockExactly`). A handler that keeps a user
  read-locked while it waits for another read of that user is blocked for good by an update of the user that is
  announced in between (`SplitReads.HeldReadDeadlocksExactly`).
- The unlocking half of a split read asks for permission again (`executor/user_requests.go:85`). If the certifier
  lost it in between, the half is refused, its answer is not looked at, and the users read stay locked
  (`UserLocks.SplitReadsPair`, `UserLocks.RevokedReadStaysLocked`): every later update of them waits for good
  (`SplitReads.SplitReadDeadlocksExactly`).
- A done status can still become a failure, and listeners of the success are not told
  (`StatusRuns.FailureOverridesSuccess`, `StatusRuns.ClosedListenersHoldFinalExactly`).

## Model

| member | source | states |
|---|---|---|
| ChannelRecord.Record.TryOpen | channels/channel_record.go:130-150 | opens exactly a buffered channel given an opening with a time, permissions for someone and a key, and then holds exactly these, the id and the opening time; otherwise it stays as it was |
| ChannelRecord.Record.TryClose | channels/channel_record.go:158-213 | on the fields: kept back while buffered; otherwise it succeeds exactly if it is not before the opening, its certifier has the close permission, and it is earlier than the closure in force or at its time with a lesser issuer; then it is the closure, its time the closing time, and exactly the messages stamped before it stay and are counted |
| ChannelRecord.Record.ApplyCloseAttempts | channels/channel_record.go:219-237 | on the fields: an open channel is closed exactly if some early closure is allowed by opening and certifier, and by the first such one in the order a sort by time left them; no early closure stays behind; the loop equals `Applying` |
| ChannelRecord.Record.AddMessage | channels/channel_record.go:245-271 | stored exactly if the channel is open or closed, the time is set, not before the opening and not after the closing, and the certifier has the write permission; the position is the number of stored messages stamped before it |
| ChannelRecord.FirstAdmissible | channels/channel_record.go:230-236 | the index it returns is that of an allowed closure, and no closure before it is allowed |
| ChannelRecord.BeforeCounts | channels/channel_record.go:203-210 | of the stored messages exactly those stamped before an instant stay, as often as they were stored |
| ChannelServer.ListenersRecord.Subscribe | channels/listeners_record.go:45-65 | adds one subscriber and its certifier and changes nobody else |
| ChannelServer.ListenersRecord.Unsubscribe | channels/listeners_record.go:67-78 | removes the subscriber from queue and certifiers, and succeeds exactly if it was subscribed |
| ChannelServer.ListenersRecord.UnsubscribeUnauthorized | channels/listeners_record.go:80-97 | what is left are exactly the subscribers whose certifier has the read permission; inboxes stay |
| ChannelServer.ListenersRecord.Publish | channels/listeners_record.go:99-102 | every subscriber's inbox, and no other, gets the event |
| ChannelServer.Server.OpenChannel | channels/channels_daemon.go:135-190 | one open request is one `Step`, and on the fields: when it fails, when it is cut short and with what fed; who stays in the queue, and that these get the opening and, if an early closure applies, a closing with its time |
| ChannelServer.Server.Feed | channels/channels_daemon.go:158-172 | operations are fed in order up to and including the first that is not answered |
| ChannelServer.Server.CloseChannel | channels/channels_daemon.go:192-219 | one close request is one `Step`, and on the fields: kept back before the opening; otherwise everybody in the queue gets one closing with the time of the closure and the number of messages left |
| ChannelServer.Server.AddMessage | channels/messages_daemon.go:124-145 | one message request is one `Step`, and on the fields: a stored message is announced to everybody in the queue with its time, data and position |
| ChannelServer.Server.BufferOperation | channels/messages_daemon.go:147-174 | one buffer request is one `Step`: the operation, marked, is kept while the channel is buffered and fed back at once afterwards |
| ChannelServer.Server.Subscribe | channels/listeners_daemon.go:114-135 | one subscribe request is one `Step`: refused exactly if permissions exist and do not let the certifier read; otherwise the new subscriber is filed with its certifier and an empty inbox |
| ChannelServer.Server.Unsubscribe | channels/listeners_daemon.go:137-151 | one unsubscribe request is one `Step`: the subscriber leaves the queue, which succeeds exactly if it was there |
| ChannelServer.Arranged | channels/channel_record.go:226 | a permutation sorted by time, and any such permutation the sort could produce |
| ChannelRuns.StepDescends | channels/channel_record.go:130-213 | no request moves the state backwards or makes it inconsistent, permissions and opening are fixed once set, and a new closure outranks the old one |
| ChannelRuns.RunDescends | channels/channel_record.go:130-213 | the same over any run, with opening time at most closing time |
| ChannelRuns.SuccessfulCloseDescends | channels/channel_record.go:185-201 | a close of a closed channel succeeds exactly if it is allowed and strictly lowers (closing time, issuer) |
| ChannelRuns.CleanRunsStayGuarded | channels/channels_daemon.go:155-186 | in every run whose openings were fed completely: publishing finds a listeners record, certifiers and subscribers agree and may all read, and no early closure or buffered operation is left after the opening |
| ChannelRuns.OnlyReadersAreSent | channels/listeners_record.go:80-102 | in such runs a request adds only to inboxes of subscribers whose certifier may read |
| ChannelRuns.CrashesExactlyWithoutRecord | channels/listeners_record.go:99-102 | which requests end the program: those that publish where no listeners record exists |
| ChannelRuns.CutShortIsReported | channels/channels_daemon.go:161-172 | an open request ends in BufferError exactly if it opens the channel and some waiting operation is not answered |
| ChannelRuns.CutShortOpenKeepsIntruders | channels/channels_daemon.go:161-178 | after an opening only readers listen, if and only if all that waited was answered or nobody had to be removed |
| ChannelRuns.InboxGrowsExactly | channels/listeners_record.go:99-102 | over any run past the opening a subscriber is sent something if and only if a message is stored or a close takes effect while it is in the queue |
| ChannelRuns.StrangersAreToldExactly | channels/channels_daemon.go:161-178 | after an opening somebody whose certifier may not read is sent something, if and only if the opening was cut short and something is published while such a subscriber is still in the queue |
| ChannelRuns.CutShortOpenLeaks | channels/channels_daemon.go:164-172 | a run in which a stranger is sent a message after an opening cut short |
| ChannelRuns.CutShortOpenCrashes | channels/channels_daemon.go:164-172 | a run in which the first message after an opening cut short ends the program |
| ChannelRuns.FedExactly | channels/channels_daemon.go:155-175 | over any run that opens, fed are the operations that waited, up to the first unanswered one, and then all that came later; after a cut everything that waited stays in the buffer |
| ChannelRuns.AllIsFedExactly | channels/channels_daemon.go:161-172 | everything that arrived has been fed, once each and in order, if and only if at most the last waiting operation was left unanswered |
| ChannelRuns.CutShortOpenStrands | channels/channels_daemon.go:164-172 | a run in which the second of two waiting operations is never fed, whatever comes later |
| ChannelRuns.CleanRunsFeedOnce | channels/messages_daemon.go:155-174 | over any run without a cut, fed and waiting operations together are exactly those that arrived, once each and in order; nothing waits after the opening |
| ChannelRuns.StrandedForever | channels/channels_daemon.go:170-175 | what an opening cut short left in the buffer is never fed later |
| ChannelRuns.IssuersOfMessagesDoNotMatter | channels/channel_record.go:254-261 | runs that differ only in who issued messages reach the same state with the same answers: the certifier answers for a message |
| ChannelRuns.CertifiersPost | channels/channel_record.go:254-261 | a run in which a writer's message issued by somebody else is stored, and a message the writer only issued is dropped |
| ChannelConvergence.BeforeOpening | channels/channel_record.go:165-169 | before the opening exactly the closures with a time wait, and exactly the buffered operations, in order |
| ChannelRuns.HasFirstOpening | channels/channel_record.go:130-138 | every list of requests has no valid opening or splits at its first one |
| ChannelRuns.LaterOpeningsAreRefused | channels/channel_record.go:131 | once the channel is open, openings are refused and change nothing |
| ChannelConvergence.FullyFedRunsGoOn | channels/listeners_record.go:99-102 | after an opening that was answered completely nothing ends the program |
| ChannelConvergence.HistoryReaches | channels/channel_record.go:158-271 | any run that opens, cut short or not, ends with the winning closure among those tried, and with as many stored messages per timestamp as were allowed, below the closing time |
| ChannelConvergence.EarlyClosuresStay | channels/channels_daemon.go:170-186 | after an opening cut short the early closures are never applied, only later ones are, and they stay until a later one succeeds |
| ChannelConvergence.CutShortStaysOpen | channels/channels_daemon.go:161-172 | a run in which an early closure is kept for good and the channel stays open, because the one waiting operation was not answered |
| ChannelConvergence.CutShortClosesAlikeExactly | channels/channels_daemon.go:170-186 | an opening cut short still leads to the closing time of one answered completely, if and only if for every allowed early closure a later one comes that is allowed and no later in time |
| ChannelConvergence.ClosesAtEarliestAllowed | channels/channel_record.go:171-201 | after any opening, cut short or not, the channel ends closed exactly if some closure that is tried is allowed, and at the earliest time any of them names |
| ChannelConvergence.LaterIsUnbeaten | channels/channel_record.go:185-201 | after closures tried one by one, none of the allowed ones outranks the one in force |
| ChannelConvergence.EarlyIsEarliest | channels/channel_record.go:219-237 | among early closures an earliest allowed one is applied, if there is one |
| ChannelConvergence.SettledBestWins | channels/channel_record.go:219-237 | the best closure by time and issuer wins if ties are settled |
| ChannelConvergence.BestWinsExactlyWhenSettled | channels/channel_record.go:40 | it wins whatever a sort by time does with ties, if and only if no early closure ties with it under another issuer or a late one settles it |
| ChannelConvergence.DistinctTimesSettle | channels/channel_record.go:185-195 | distinct closing times settle every tie |
| ChannelConvergence.TiedEarlyClosuresDiverge | channels/channel_record.go:225-226 | two early closures at one time: either can stay, as the sort decides |
| ChannelConvergence.TiedLateClosuresAgree | channels/channel_record.go:190-195 | two closures at one time after the opening: in both orders of arrival the lesser issuer stays |
| Common.PrecedesExactly | channels/channel_record.go:193 | one string precedes another if and only if at the first place where they differ it ends or has the smaller character |
| ChannelConvergence.ReplicasConverge | README.md:6 | same opening, same closures tried, same messages handled after it, in any order: same state, closing time and stored messages, but for those stamped exactly at the closing time |
| ChannelConvergence.ReplicasConvergeExactly | README.md:6 | with the same messages anywhere around the opening that holds if and only if both runs handled equally many allowed messages too early, for every time before the closing |
| ChannelConvergence.ReplicasAgreeOnClosure | channels/channel_record.go:190-195 | and the same closer, if ties are settled on both |
| ChannelConvergence.ClosersConvergeExactly | channels/channel_record.go:190-195 | all fully fed runs with the same opening and closures, placed anywhere and sorted anyhow, agree on time and issuer of the closure in force, if and only if all earliest allowed closures have one issuer |
| ChannelConvergence.BoundaryMessagesDiverge | channels/channel_record.go:203-210 | a message stamped at the closing time stays or goes with the order of arrival |
| ChannelBoundary.MessagesConvergeExactly | channels/channel_record.go:203-210 | a run stores what every run does that has the same opening, closures and messages and handles no message too early, if and only if no allowed message carries the time of the earliest allowed closure and none from before it is handled before the opening |
| ChannelBoundary.AnyOrderConvergesExactly | channels/channel_record.go:245-252 | with messages before the opening included, every order stores the same, if and only if every allowed message is later than some allowed closure |
| ChannelBoundary.StoredCounts | channels/channel_record.go:203-271 | each timestamp is stored as often as it was allowed after the opening before the closing time, at most that often at it, and never after it |
| ChannelBoundary.EarlyMessageIsLost | channels/channel_record.go:246-252 | one message, no closure: stored after the opening, gone before it |
| ChannelBoundary.ClosuresLeaveNoneAtClosing | channels/channel_record.go:203-212 | closing keeps only messages stamped before the closing time |
| ChannelBoundary.ClosedStoresUpToClosing | channels/channel_record.go:245-269 | a closed channel goes on storing allowed messages up to and including the closing time |
| Replica.InsertionMirrors | channels/channel_record.go:263-270 | inserting at the announced position keeps a sorted copy of the stored messages |
| Replica.TruncationMirrors | channels/channel_record.go:203-212 | cutting off at the announced position keeps a sorted copy of what a closing left |
| Replica.OpeningSends | channels/channels_daemon.go:177-186 | an opening sends only positions 0, and no message is stored then |
| Replica.RunTracks | channels/messages_daemon.go:138-145 | a faithful copy stays faithful over any run for a subscriber that is not removed |
| Replica.EarlySubscribersMirrorTheChannel | channels/channels_daemon.go:180-186 | who subscribes before the opening and stays, and replays the events, always holds the stored messages sorted by time |
| LockNeeds.SanitizeLockNeeds | core/sync.go:54-88 | exactly the needs asked for, but for reads of what is written too; reads before writes, and by id within a mode |
| LockNeeds.SanitizeUnlockNeeds | core/sync.go:90-100 | the same needs in the opposite order |
| LockNeeds.Reverse | core/sync.go:93-97 | swapping in place from both ends reverses the array |
| LockNeeds.NeedLessIsStrictTotal | core/sync.go:46-52 | the order on needs is strict, transitive and total |
| LockNeeds.SortedIsUnique | core/sync.go:85 | a strictly sorted list is the only one with its elements |
| LockNeeds.SanitizedDependsOnSet | core/sync.go:66-85 | equal sets of needs are sanitized alike, however ordered or repeated |
| LockNeeds.SanitizedHasStrongest | core/sync.go:66-74 | each id asked for occurs once, as a write exactly if any need for it is one |
| LockNeeds.SanitizedIsIdempotent | core/sync.go:54-100 | sanitizing again changes nothing, also after reversing for unlocking |
| LockNeeds.LockStore.DoLocking | core/sync.go:125-154 | succeeds exactly if every id has a record; then each lock changes by one in the strongest mode asked for, and otherwise nothing changes |
| LockNeeds.LockStore.Lock | core/sync.go:160-162 | succeeds exactly if every id has a record; then each lock gains one writer if a write of it is asked for, one reader if only reads are |
| LockNeeds.LockStore.Unlock | core/sync.go:168-170 | succeeds exactly if every id has a record; then each lock loses just that |
| LockNeeds.LockedPointwise | core/sync.go:148-151 | locking adds to each lock exactly the strongest mode asked for it, and unlocking takes exactly that away |
| LockNeeds.LockedExactly | core/sync.go:148-151 | the same by the needs as they were asked for: a write if one was, a read if only reads were |
| LockNeeds.UnlockUndoesLock | core/sync.go:156-170 | locking and then unlocking with permuted or repeated needs restores every lock |
| Deadlock.LocksExclude | core/sync.go:106-120 | in every run what two parties hold of one lock at a time are reads |
| Deadlock.StuckWaitsForHolder | core/sync.go:148-151 | in a deadlock whoever is stuck waits for a lock another stuck party holds |
| Deadlock.IdOrderNeverDeadlocks | core/sync.go:76-85 | parties that follow one order on ids are never all stuck |
| Deadlock.NeverDeadlocks | core/sync.go:76-85 | any number of requests, in any interleaving, never deadlock if each id is asked for in one mode only or each request is of one mode |
| Deadlock.RunsAreFinite | core/sync.go:148-151 | no run takes more steps than there is work |
| Deadlock.EveryRunCompletes | core/sync.go:125-154 | under that condition any run can be completed by possible steps, so that every request took and gave back its locks |
| Deadlock.JamPersists | core/sync.go:148-151 | parties each kept from moving by another of them stay so, whatever the others do |
| Deadlock.JamDeadlocks | core/sync.go:148-151 | and any run that reached such a jam can be run into a deadlock |
| ClaimsDeadlock.StuckWaits | core/sync.go:148-151 | in a deadlock whoever is stuck waits, at the places reached, for another one that is stuck or for one that has ended |
| ClaimsDeadlock.ClosedDeadlocks | core/sync.go:148-151 | places from which some parties wait for one another, or for what one has kept, can be reached by a schedule that ends in a deadlock |
| ClaimsDeadlock.ClaimsDeadlockExactly | core/sync.go:106-154 | any number of parties that read and drop in any order, and may then write, can deadlock if and only if one ends keeping what another one is to write, or following who waits for whom comes round from some places |
| ClaimsDeadlock.TwoClaimsDeadlockExactly | core/sync.go:106-154 | two of them can, if and only if each holds what the other one is to write, or one keeps what the other is to write or, if announced writers go first, takes it a second time |
| UsersDeadlock.WishShape | users/daemon.go:168-187 | in canonical order a request takes each record it only reads once, by id, and the one it writes last |
| UsersDeadlock.WritersLead | core/sync.go:148-151 | from a party waiting for its write, the next or the one after it in who waits for whom is at its write as well, and the first leads to it |
| UsersDeadlock.ClosedWaits | core/sync.go:148-151 | writers that lead to one another can all be brought to wait, whatever the others read |
| UsersDeadlock.DeadlockExactlyInCycles | core/sync.go:148-151 | any number of parties that read in any order, repeats included, then write what they did not read, and drop all together, can deadlock if and only if there is a cycle in which each leads to the next |
| UsersDeadlock.RequestsDeadlockExactlyInCycles | core/sync.go:76-85 | the same for requests with sanitized needs that give back all they took |
| UsersDeadlock.RequestLeadsExactly | core/sync.go:46-52 | one request leads to another if the other one reads what it writes or, if announced writers go first, some request reads what it writes and, later in the order of ids, what the other one writes |
| UsersDeadlock.AnnouncedWritersDeadlockWithoutReadCycle | core/sync.go:106-120 | two updates and a read, without any cycle of reads, can deadlock if and only if announced writers keep new readers out |
| Status.StatusRecord.Update | status/status_record.go:219-230 | changes the record exactly if the new status comes later in none, queued, running, success, failed; also if the update is the record itself |
| Status.Server.CreateOrGet | status/status_record.go:240-243 | the first record for a ticket becomes its record; later ones get that one |
| Status.Server.DoStatusUpdate | status/status_daemon.go:96-129 | the ticket becomes `Updated`, and on the fields: exactly a status later in that order is recorded and sent to every open listener, and a success or failure closes and forgets them all; no send is to a full or closed channel |
| Status.Server.FanOut | status/status_daemon.go:115-128 | every open listener is sent the record once, and all are closed and forgotten exactly if it is a success or failure |
| Status.Server.DoListenerServerWork | status/listeners_daemon.go:92-113 | the ticket becomes `Listened`: a new listener of a success or failure is sent it and closed, any other is kept |
| Status.UpdatedStaysValid | status/status_daemon.go:96-129 | an update keeps every listener's sends a stretch of the ticket's history up to now or to its first done status |
| Status.OpenListenersHaveRoom | status/listeners_daemon.go:12 | an open listener's buffer of 3 is never full, so no send under the lock can block |
| StatusRuns.ListenersAreServed | status/status_daemon.go:115-128 | in every interleaving each listener is sent strictly rising ranks, at most 3, a done one only as the last, and is closed exactly then |
| StatusRuns.NoFinalUpdateIsLost | status/status_daemon.go:138-145 | once the record is done, every listener processed so far holds a done status last and is closed, even if the first update became the record |
| StatusRuns.OpenListenersMissNothing | status/listeners_daemon.go:121-131 | an open listener was sent everything the record became since it was added |
| StatusRuns.SendsOnlyGrow | status/status_daemon.go:116-125 | what was sent stays sent, and nothing is sent after closing |
| StatusRuns.RecordEndsHighest | status/status_record.go:219-230 | when all updates have run, the record has the highest rank that arrived, whatever the interleaving |
| StatusRuns.FailureOverridesSuccess | status/status_record.go:40-46 | a run in which a failure replaces a success after listeners were closed |
| StatusRuns.ClosedListenersHoldFinalExactly | status/status_daemon.go:96-129 | when all updates have run, a closed listener was last sent the final status, if and only if that is a failure or no failure arrived |
| StatusRuns.HistoryIsKnown | status/status_record.go:219-243 | a ticket only ever holds contents that arrived, or the empty ones of a first listener |
| StatusRuns.HistoryIsTakenUpExactly | status/status_record.go:40-46 | in every interleaving the history of a ticket is what its record began with and then all that updates brought, in the order they were taken up, if and only if each status comes later in the order than the one before it |
| StatusRuns.OpenListenersAreSentAll | status/status_daemon.go:96-129 | a listener open before any update is taken up is sent all that are, if they come in turn and only the last is done, and is closed exactly by that one |
| StatusRuns.EveryStageIsSent | status/status_record.go:221-228 | whatever happens in between: updates taken up as queued, running, done each become the record, and a listener open from the start is sent each of them |
| UserRecord.User.UpdateRegister | users/record.go:127-143 | a register keeps the newest write and says whether it changed |
| UserRecord.User.ApplyUpdateRequest | users/record.go:66-125 | field by field, with repeats: exactly the named fields that are older get the new value and time, and each of the four group times becomes that of the change exactly if one of its fields did |
| UserRecord.User.MarkUpdated | users/record.go:81-92 | channel add and read date channel permissions, permissions and record; the six user permissions date user permissions, permissions and record; active and the keys only the record |
| UserRecord.User.Create | users/record.go:148-201 | a new record holds the data and the time of the request in every field, and its time in every group |
| UserRecord.User.IsAuthorizedToUpdate | users/record.go:214-233 | allowed exactly if naming active comes with the remove permission, each key with its own update permission or on the own record, and any permission field with the permission to update permissions |
| UserRecord.FieldByField | users/record.go:66-125 | one more field of a change has the effect of that field alone |
| UserRecord.ChangedExactly | users/record.go:66-143 | a change writes exactly the named fields that are older, and sets each group time exactly if one of these belongs to the group |
| UserConvergence.NewestWins | users/record.go:127-143 | after any changes a register holds its old value or that of a newest change naming it |
| UserConvergence.RegisterConvergesExactlyWhenAgreed | users/record.go:127-143 | a register ends the same in every order if and only if its newest changes agree |
| UserConvergence.RecordsConverge | users/record.go:66-125 | with distinct times all registers end the same in every order, each from the newest change naming it |
| UserConvergence.AggregateIsOfNewest | users/record.go:66-125 | after any changes the time of the record, or of a group of permissions, is that of a newest change of some field it covers, or the old one if nothing newer came |
| UserConvergence.AggregateConvergesExactly | users/record.go:66-125 | for any list of changes each such time is the same in every order, if and only if all newest changes of fields it covers carry one time |
| UserConvergence.AggregatesDiverge | users/record.go:70-72 | two changes after which the record's own time depends on the order |
| UserServer.Server.LockUsers | users/sync.go:13-29 | takes the needs all or nothing and returns exactly the records that exist |
| UserServer.Server.ReadUserRecordsByIds | users/utilities.go:93-107 | all records asked for in order, or none if one is missing |
| UserServer.Server.FindSigners | users/daemon.go:206-219 | a valid index of each signer's record, or -1 exactly if there is none |
| UserServer.Server.Requested | users/daemon.go:300-319 | the records asked for, in that order, repeats included |
| UserServer.Server.LockNeedsToTake | users/daemon.go:166-187 | exactly a read of each signer unless permissions are skipped, a write of the user to be changed, and a read of each user asked for if the locking flag is set |
| UserServer.Server.LockNeedsToReturn | users/daemon.go:326-336 | the same, but for the users asked for if the unlocking flag is set |
| UserServer.NeedsExactly | users/daemon.go:166-187 | which needs a request takes and gives back, by its kind and flags |
| UserServer.Server.Execute | users/daemon.go:251-320 | what a permitted request does to store, locks and reply |
| UserServer.Server.Work | users/daemon.go:157-347 | which answer a request gets, by the signers and subjects that are stored and by the permissions its certifier was granted; the one user that is created or changed, register by register, and nobody else; the locks, and the reply |
| UserServer.GrantDecidesItsFields | users/record.go:220-233 | granting a certifier one of the permissions changes the answer to an update exactly if the update names a field that asks for it, and nothing else is missing |
| UserServer.AnswerExactly | users/daemon.go:221-246 | each answer, by what is stored and what the certifier was granted |
| UserServer.StoreExactly | users/daemon.go:251-282 | what a request stores, register by register; nobody else is touched |
| UserServer.TakenIsKnown | users/daemon.go:326-343 | whatever is to be unlocked has a record, so unlocking cannot fail |
| UserServer.SignersFound | users/daemon.go:221-236 | signers are found among the gathered records exactly if they are stored, so the certifier's index is valid where it is used |
| UserLocks.ReadRunsExactly | users/daemon.go:221-236 | a read succeeds if and only if its signers and users are stored and its certifier may read, or permissions are skipped |
| UserLocks.LocksLeft | users/daemon.go:166-343 | for every kind of request, overlap and outcome: the readers left on each lock, and never a writer |
| UserServer.SameNeedsBalance | users/daemon.go:338-343 | requests that give back what they took restore every lock |
| UserLocks.BalancedExactly | users/daemon.go:221-230 | a request leaves every lock as it was, if and only if it is neither an unlocked read of a missing user by known signers nor a half of a split read that is granted, finds everybody and names a non-signer |
| UserLocks.SplitReadsPair | executor/user_requests.go:70-88 | the lock-only half holds exactly the requested users that are not signers; at any later store and lock table the unlock-only half takes exactly these back if its certifier may still read, and otherwise is refused and changes no lock |
| UserLocks.HalvesCancelExactly | users/daemon.go:224-246 | the halves cancel out on every lock, if and only if the certifier may still read by the second one or nobody but signers was asked for |
| UserLocks.RevokedReadStaysLocked | executor/user_requests.go:84-87 | a run in which the permission is taken away between the halves and the user read stays locked |
| UserLocks.MissingUserLeavesSignerLocked | users/daemon.go:221-230 | an unlocked read of a missing user that leaves its signer locked |
| UserTasks.HeldIsLeft | users/daemon.go:326-343 | what a request adds to or takes from what its handler holds is what it leaves on the lock, so the lock table and the programs agree |
| UserTasks.TasksDeadlockExactly | users/daemon.go:166-343 | any list of handlers, each with an update or with any reads, split reads and creations, verified or not, granted or not, can deadlock if and only if one ends keeping a user that another is to change, or following who waits for whom comes round from some places; every request is taken to find its records |
| UserTasks.TwoRequestsDeadlockExactly | users/daemon.go:166-187 | two handlers with one request each can, if and only if they update different users and each is signed by the user the other changes, or one is a granted lock-only read that keeps the user the other changes |
| UserTasks.ReadsAndCreationsNeverDeadlock | users/daemon.go:181-194 | any number of handlers with reads, split reads and creations never block each other |
| SplitReads.WholeRequestsDeadlockExactly | users/daemon.go:166-194 | any list of requests that give back all they took (updates, creations, reads with both flags alike, refused halves) can deadlock if and only if which update leads to which comes round again |
| SplitReads.SplitIsTask | executor/user_requests.go:70-88 | the second half of a split read gives back only what the first one kept, so it is among the handlers the condition covers |
| SplitReads.SplitKeeps | executor/user_requests.go:84-88 | a split read ends holding the requested users that are not signers, exactly if its second half is refused |
| SplitReads.SplitReadDeadlocksExactly | executor/user_requests.go:70-88 | a split read and one update can deadlock if and only if the second half is refused and the update is of a requested user who is no signer |
| SplitReads.EntangledDeadlockExactly | executor/user_requests.go:70-88 | a split read, an update of a requested user by a signer of the read, and an update of that signer can deadlock if and only if the second half is refused, or announced writers go first, or the two updates already block each other |
| SplitReads.HeldReadDeadlocksExactly | executor/channel_requests.go:207-232 | a handler that keeps users read-locked around another read, and one update, can deadlock if and only if announced writers go first and both reads are of the user to be changed |
| UserOrder.AcceptedAlike | users/record.go:214-233 | whether an update is granted depends on four permissions of its certifier only |
| UserOrder.UpdatesReplay | users/daemon.go:232-282 | for updates of stored users, verified or not, none of which changes those permissions of a user who certifies one of them: every user ends as replayed from the changes that were granted at the start |
| UserOrder.UpdatesConverge | users/daemon.go:232-282 | such updates leave every register the same in every order, if those granted that name one field of one user differ in time |
| UserOrder.UpdatesConvergeExactly | users/daemon.go:232-282 | every order of such a list leaves a register the same, if and only if the newest of the changes granted at the start agree on it |
| UserOrder.RegisterInRun | users/daemon.go:232-282 | after any updates a register is that of replaying what was granted when its turn came |
| UserOrder.AnyUpdatesConvergeExactly | users/daemon.go:232-282 | for any updates of stored users, verified or not, whatever they change: every order leaves a register the same, if and only if every order grants something at least as new as whatever any order grants, if changes of one field differ in time |
| UserOrder.AnyTimesConvergeExactly | users/daemon.go:232-282 | the same for the time of a register, ties included |
| UserOrder.TwoUpdatesConvergeExactly | users/daemon.go:232-282 | any two updates, verified or not, leave the same registers in both orders, if and only if each is granted alike before and after the other or finds nothing to write after it, and they agree on fields they tie on if both are granted |
| UserOrder.RefusedUpdateIsLost | users/daemon.go:236-246 | a newer update is refused and lost where it arrives before the one that lets its certifier make it |
| NewUsers.EarlyUpdatesAreLost | users/daemon.go:221-230 | whatever updates of new users, or signed by them, come before the creations are lost; the later ones change what was created |
| NewUsers.UnnoticedExactly | users/record.go:127-143 | an update changes nothing if and only if it is refused or no field it names is older than it |
| NewUsers.NewUserNotices | users/record.go:148-201 | a user just created is changed by an update exactly if it names a field and is newer than the creation and than the zero time |
| NewUsers.CreationsConvergeExactly | users/daemon.go:221-230 | any creations and any updates of the new users, or signed by them, leave the same store in every order, if and only if none of the updates would be noticed once all users are created |
| Decryptor.Work | decryptor/daemon.go:194-258 | for every way decryption, verification and hand-over can end, by the operation: refused with which error, or handed over marked for buffering, or with its plaintext and, if verified, its issuer and certifier |
| Decryptor.HandoverIsComplete | decryptor/daemon.go:217-243 | a verified request is handed over with a failed operation, only marked, or with plaintext and signers in their roles, never both or neither |
| Decryptor.OperationsDoNotCirculate | core/operation.go:53-55 | whatever keys, components and channel do, an operation enters the decryptor at most twice and rests after at most five moves |
| Decryptor.FedOperationsNeverReturn | channels/messages_request.go:85-91 | what a channel feeds back is handed over with its signers and plaintext if it decrypts and verifies, and refused otherwise, never buffered again |
| Executor.Handler.RequestLock | executor/channel_requests.go:69-84 | one answer of the locker: success, or one failure reported |
| Executor.Handler.GiveLockBack | executor/channel_requests.go:90-100 | the lock taken last is given back; one failure is reported exactly if that is refused |
| Executor.Handler.ChannelActionPassthrough | executor/channel_requests.go:32-54 | one status reported, a success exactly if the channel did it |
| Executor.Handler.DoReadChannel | executor/channel_requests.go:106-164 | for every answer: locks given back in reverse, one final status and one more failure only if the unlock is refused; where it waits for ever or crashes |
| Executor.Handler.DoAddChannel | executor/channel_requests.go:170-246 | the same for opening a channel |
| Executor.Handler.DoCloseChannel | executor/channel_requests.go:252-283 | the same for closing one |
| Executor.Handler.DoAddMessage | executor/channel_requests.go:289-336 | the same for adding a message or buffering an operation |
| Executor.Handler.DoSubscribeChannel | executor/channel_requests.go:342-378 | the same for subscribing |
| Executor.Handler.DoChannelEncrypt | executor/channel_requests.go:384-446 | the same for encrypting with a channel's key |
| Executor.Handler.DoGenericUsersRequest | executor/user_requests.go:14-44 | one final status, whatever the users daemon answers |
| Executor.Handler.DoTransactionEncrypt | executor/user_requests.go:50-108 | a success exactly if all keys parse and encryption works; the unlocking half is asked for once, and the user locks are kept exactly if it fails |
| Executor.TicketEndsAsReported | executor/daemon_api.go:120-141 | in whatever order its reports are taken up, a ticket ends as a success exactly if the handler succeeded and gave the channel's lock back |
| Executor.ListenersLearnOutcomeExactly | executor/channel_requests.go:69-100 | in every run every closed listener was last sent the outcome of its request, if and only if it is not the case that the handler succeeded and the release of the lock was refused |
| Pipeline.EveryRunHolds | decryptor/daemon.go:194-258 | in every interleaving, whatever the keys and the components do, each message that arrived is in exactly one place, once: on its way, waiting for the opening, lost, or handled by the channel; and what waits to be added carries the signers and the payload of its operation |
| Pipeline.HandledMessagesArrived | executor/channel_requests.go:304-310 | every message the channel was given has the issuer, the certifier and the time of an operation that arrived |
| Pipeline.RequestBrings | executor/channel_requests.go:301-317 | what waits is asked of the messages daemon with the signers it was handed, which are those of its operation, or as a buffering |
| Pipeline.RequestConserves | channels/channels_daemon.go:155-175 | a request to the channel makes and destroys no operation; an opening shares out what waited |
| Pipeline.JourneysFollowDecrypting | decryptor/daemon.go:208-252 | the way of one operation in `Decryptor` is its part of the whole pipeline: at the decryptor |
| Pipeline.JourneysFollowExecuting | channels/messages_daemon.go:147-174 | at the executor: refused, added, buffered, or handed back at once |
| Pipeline.JourneysFollowOpening | channels/channels_daemon.go:155-175 | and in the buffer: handed back by an opening, or kept if it is cut short first |
| PipelineLosses.BufferedUntilOpening | channels/channel_record.go:130-149 | a channel is buffered exactly until its first valid opening |
| PipelineLosses.LossesAreExact | executor/channel_requests.go:301-327 | nothing is lost or came too early, if and only if no move dropped, refused or misplaced a message: the guards are those of the branches that do |
| PipelineLosses.MessagesGetThroughExactly | channels/channel_record.go:246-252 | at rest an open channel was given after its opening exactly the messages that arrived, once each, if and only if no move was one of the losing kinds |
| EarlyMessage.EarlyMessageIsLost | core/crypto.go:363 | a run in which every component does its part and a message that needs no new key is dropped |
| PipelineConvergence.InternalMovesDescend | channels/messages_daemon.go:155-168 | once the channel is open every step of an operation on its way, whatever its result, lowers the steps that are left |
| PipelineConvergence.InternalRunsAreBounded | decryptor/daemon.go:208-252 | so they come to rest after at most `Pending` steps, and until then one can step |
| PipelineConvergence.EverythingGetsThrough | decryptor/daemon.go:194-258 | from wherever an open channel has come, possible steps lead to rest, and then it was given exactly the messages that arrived, if and only if no move so far was one of the losing kinds |
| PipelineConvergence.PostedIgnoresOrder | channels/channel_record.go:245-269 | which timestamps are allowed depends on the messages and not on their order |
| PipelineConvergence.PipelinesConvergeExactly | README.md:6 | two nodes at rest that were sent the same messages, lost the same ones and handled the same closures around one fully fed opening agree on state, closing time and all messages not stamped exactly at it, if and only if equally many of each time before the closing came too early |
| PipelineConvergence.PipelinesConverge | README.md:6 | they agree if no move was one of the losing kinds |

## Left out

- Command line, files, websockets, server start and shutdown, logging, and request encodings.
- Cryptography: whether decryption, verification and encryption work is an argument.
- Worker pools, the item store, the event queue and the concurrent map are not part of this model. They appear as the freedom to take requests in any order, as finite maps with atomic insert-if-absent, and as a set of subscribers with an inbox each. Unsubscribing an unknown id is taken to fail, and adding a user whose id is taken to keep the stored record.
- One channel, and one ticket, at a time: records with different ids do not share state.
- Reading a channel changes nothing and is left out of the channel machine.
- ChannelServer.Server.Feed: a queuer that refuses an operation outright returns no channel to wait on; that endless wait is not modelled.
- ChannelServer.Server.BufferOperation: the same endless wait is not modelled here.
- ChannelServer.Server.Subscribe: the goroutine that forwards events to the caller is not modelled; an inbox is what the queue was given.
- ChannelConvergence.HistoryReaches: runs in which the program has ended, after an opening cut short with nobody listening; which requests end it is `ChannelRuns.CrashesExactlyWithoutRecord`.
- Status.Server.DoStatusUpdate: listeners get a pointer to the record in the source and can later see newer fields through it; the model records the contents at the time of sending.
- Status.Server.FanOut: likewise a copy of the contents is sent, not the shared record.
- Status.StatusRecord.Update: status and reason codes are enumerations, because `check` (status/status_record.go:205-217) refuses all others before they get here.
- UserServer.Server.Work: one request runs from start to end on the lock counts; what overlapping requests do to each other while they wait is the subject of `Deadlock`. The reply `UnlockingFailed` never occurs, because records are never removed.
- UserRecord.User.ApplyUpdateRequest: keys are opaque strings, and field names outside the known ones, which the source skips, do not occur.
- UserTasks.TasksDeadlockExactly: whether a request is granted is an argument, so that a permission taken away by an update of the same list is one of the cases, not a consequence. Requests that do not find their records, and unlocking halves without a locking one before them, are left out.
- Executor.Handler.DoReadChannel: the missing check for nil signers is modelled as `crashed`, after the deferred releases have run; in DoChannelEncrypt likewise.
- Pipeline.EveryRunHolds: requests that ask for verification, about one channel. An unverified message has no signers and is always refused by the messages daemon.
- UserLocks.MissingUserLeavesSignerLocked: no handler sends such a read. The unlocked reads there are (`executor/channel_requests.go:148`, `executor/channel_requests.go:228`, `executor/user_requests.go:85`) follow a locking half that found everybody, and users are never removed.
- UserOrder.UpdatesConverge: lists in which an update changes the say of somebody who certifies another one. Their exact condition, `UserOrder.AnyUpdatesConvergeExactly`, speaks about what is granted in each order, and not about the fields the updates name.
