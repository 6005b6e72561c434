# A verified model of nvshare

nvshare lets several applications share one GPU: a scheduler hands a single GPU
lock to one client at a time, in the order of their requests, for at most a time
quantum. This project models the lock protocol between the scheduler and its
clients, and the data structures and algorithms underneath it, and proves what
they promise. `dafny verify dfyconfig.toml` checks everything.

## How the model is built

- **The scheduler.** `Scheduler.Server` and `Scheduler.TimerThread` are the
  program's own operations on its global lists and flags. Each is proved equal to
  a function of `SchedulerSpec`. `SchedulerRuns` strings those functions into runs:
  accept, receive, hang-up, timer timeout, timer wake. `SchedulerExact` says of each of
  them exactly what it changes. In every event a set `dead`
  names the clients whose socket does not take the message, so every pattern of
  send failures is covered.
- **The client.** `Client.App` is the state that three threads of an application
  share; `ClientSpec` has the function of each critical section.
- **The protocol.** `Protocol` joins one scheduler and any number of clients and
  control tools over two FIFO channels per connection. Every section under a mutex
  is one step. Grants, drops and releases carry the scheduling round they belong
  to; the programs do not send it and no step of the model looks at it, it only
  lets theorems speak of "the same grant".
- **How the protocol is proved.** A connection sees the scheduler through a small
  `View` (mode, queued, holder, round). `SchedulerViews` proves which views can
  follow each other; `Connections`, `Tokens`, `SingleToggle` and `Owners` prove
  invariants of one connection over those moves; `ProtocolTheorems`, `Exclusion` and
  `ExclusionLost` put them together for runs.
- **Underneath.** `LinkedList` and `ListSort` work on nodes in the heap; `NodeLists`
  ties the loops of the scheduler and the ledger on nodes to the models on sequences;
  `Numerals`, `Fields`, `FieldLaws`, `Output`, `Formats`, `Formatter`, `Spelling` and
  `FormatTheorems` are the C99 formatter; `KernelWindow`, `AllocationLedger` and `Framing` are the
  launch limiter, the memory ledger and the message stream.

## What does not hold

Each of these is a property that one would expect and the code does not have. Each
comes with a reachable state or input in which it fails, and with the exact
condition under which it holds.

- Mutual exclusion across two OFF/ON toggles (`TwoTogglesBreakMutualExclusion`): a
  release that is read from the holder while the holder owns the lock by a grant made
  since the last OFF, or has the LOCK_OK of such a grant on its way, takes the lock from
  under it. A step keeps ownership exclusive
  exactly when it does not read such a release (`ExclusiveExactly`); up to the first
  one mutual exclusion holds (`ExclusionWithoutHarm`), and from every one of them the
  system can go on to two owners (`HarmLeadsToTwoOwners`). One toggle never produces
  one (`OneToggleIsSafe`, `HarmNeedsStale`).
- Work conservation after a second REGISTER of the lock holder
  (`SecondRegisterStrands`); exact condition for a step in `WorkConservingStep` and
  `StrandedStep`, for every state of every run in `StrandedExactly`.
- Unlisting exactly one client: the loop of `delete_client` reads the client's
  descriptor from the client's own node in every turn, also after freeing that node
  (`UnlistClient`). For given contents of the freed memory it does the right thing
  exactly when no later client matches them (`UnlistedExactly`), whatever the contents
  exactly when the client is the last one listed (`UnlistedWhateverMemory`). With two
  clients, both can vanish (`SecondClientVanishes`).
- Enforcement of the quantum after a timeout that coincides with the reset for a new
  grant (`CoincidingTimeoutForgets`, `ForgottenForGood`); exact condition in
  `TimeoutTells`.
- The field width of an integer with group separators and a precision
  (`ShortField`); exact condition in `FieldReachesWidth`. The leading zero of the
  alternative octal form with separators (`LostOctalZero`); exact condition in
  `OctalAlternative`.
- The allocation limit under wrap-around of the sum (`WrapBeatsTheLimit`); exact
  condition in `LimitKeptExactly`.

Where the formatter departs from section 7.19.6.1 of ISO/IEC 9899:1999, the model
follows the code: `%c` ignores the field width (`CharacterField`), a zero with
precision zero prints "0" instead of nothing (`ZeroWithPrecisionZero`), and an unknown
conversion is skipped (`SkippedConversion`).

## Model

| member | source | states |
|---|---|---|
| `Scheduler.Server.InsertReq` | src/scheduler.c:123-137 | the queue grows by the client at its end, unless it is queued already |
| `Scheduler.Server.RemoveReq` | src/scheduler.c:139-155 | every request of the client leaves the queue; the lock becomes free exactly when the client was the head |
| `Scheduler.Server.DeleteClient` | src/scheduler.c:98-121 | the client leaves the list and the queue, everybody else stays in order |
| `Scheduler.Server.BcastStatus` | src/scheduler.c:209-219 | exactly one status to every registered client that can be reached, exactly the unreachable ones are deleted |
| `Scheduler.Server.TrySchedule` | src/scheduler.c:295-316 | terminates; new lists, lock, round, reset flag and the one message sent |
| `Scheduler.Server.RegisterClient` | src/scheduler.c:159-206 | the id is the first drawn one that is neither reserved nor taken; second registration or failed status fails |
| `Scheduler.Server.ProcessMsg` | src/scheduler.c:393-501 | new state and messages for each of the message types, also from unregistered clients and with the scheduler off |
| `Scheduler.Server.Hangup` | src/scheduler.c:645-663 | the client is deleted and the lock passed on if the scheduler is on and the lock free |
| `Scheduler.TimerThread.BeginInterval` | src/scheduler.c:341-348 | the round of the interval's start, the reset flag cleared |
| `Scheduler.TimerThread.Step` | src/scheduler.c:349-389 | timeout and signalled wake: whom it tells to drop, when it deletes the holder, when a new interval begins |
| `SchedulerInvariant.TryScheduleResult` | src/scheduler.c:295-316 | the grant goes to the first request whose send succeeds, exactly the clients before it are deleted, the rest keep their order |
| `SchedulerInvariant.NextKeepsInv` | src/scheduler.c:596-668 | every event, with every pattern of failing sends, keeps the scheduler's invariant |
| `SchedulerInvariant.SchedulerSafety` | src/scheduler.c:98-501 | in every state of every run: the holder is the queue head and the last client granted; off means empty queue and free lock; queued clients are listed, registered, distinct; descriptors and ids are distinct |
| `SchedulerTheorems.WorkConservingStep` | src/scheduler.c:402-410 | a step leaves requests waiting for a free lock if and only if it is a second REGISTER of the holder with others queued |
| `SchedulerTheorems.WorkConservation` | src/scheduler.c:393-501 | up to the first such step a run never has a request waiting for a free lock, right after it it has |
| `SchedulerTheorems.StrandedStep` | src/scheduler.c:393-501 | from a state with a queue and a free lock, if and only if condition for a step to put the lock back to work or the queue away |
| `SchedulerTheorems.StrandedExactly` | src/scheduler.c:393-501 | for every state of every run: a request waits for a free lock if and only if some event stranded the queue and none has rescued it since |
| `SchedulerTheorems.BoundedOvertaking` | src/scheduler.c:295-316 | while a request stays queued behind k others, at most k grants are made, all to clients queued ahead of it |
| `SchedulerTheorems.RoundsAreGrants` | src/scheduler.c:300-315 | the round counter advances by the number of clients granted, which is at most one |
| `SchedulerTimer.ToldExactly` | src/scheduler.c:349-377 | if and only if condition for a DROP_LOCK, and its receiver |
| `SchedulerTimer.DropAfterFullInterval` | src/scheduler.c:341-389 | a DROP_LOCK goes to the last client granted, which held the lock under that grant in every state of the interval |
| `SchedulerTimer.OneDropPerRound` | src/scheduler.c:349-389 | without SET_TQ, at most one DROP_LOCK per scheduling round |
| `SchedulerTimer.TimeoutTells` | src/scheduler.c:352-377 | a timeout with the lock held leaves the round told or the holder deleted if and only if the round was told before or both tests pass |
| `SchedulerTimer.EveryTimeoutTells` | src/scheduler.c:349-377 | in runs where no timeout coincides with a pending reset, every timeout with the lock held does so |
| `SchedulerTimer.CoincidenceForgets` | src/scheduler.c:352-366 | a coinciding timeout leaves the new grant untold with the flag set |
| `SchedulerTimer.ForgottenForGood` | src/scheduler.c:352-366 | from then on no number of timeouts produces a DROP_LOCK for that grant, short of SET_TQ |
| `SchedulerViews.NextSeen` | src/scheduler.c:393-501 | what any event can look like from one surviving connection: mode change, registration or ordinary move |
| `SchedulerViews.ListedShrinks` | src/scheduler.c:98-121 | no event but accept adds a client |
| `SchedulerExact.RemovedExactly` | src/scheduler.c:393-501 | for every event: a listed client is gone afterwards if and only if it hung up, registered twice, asked or released unregistered, or a status, a grant or a drop that this event sends it could not be delivered |
| `SchedulerExact.SettingsFollow` | src/scheduler.c:412-462 | in every run the quantum is the last one that a SET_TQ set, 30 before the first, and the mode is what the last SCHED_ON or SCHED_OFF said |
| `SchedulerExact.ResetExactly` | src/scheduler.c:311-314 | the timer's reset becomes due if and only if somebody is granted the lock or a new quantum is set |
| `SchedulerExact.IntervalsExactly` | src/scheduler.c:341-389 | a wake-up begins a new interval if and only if a reset is due, a timeout always does |
| `SchedulerExact.FirstDrawIsTaken` | src/scheduler.c:171-184 | the id is the first number drawn that is neither reserved nor in use |
| `Client.App.Ask` | src/client.c:73-106 | the gate: passes with the lock or when locally off, else sends one REQ_LOCK and waits |
| `Client.App.Receive` | src/client.c:257-352 | first status and every later message: new flags and what is sent |
| `Client.App.GiveBack` | src/client.c:308-319 | the lock is returned once and no longer owned |
| `Client.App.EarlyStep` | src/client.c:396-484 | timeout, spurious wake and signal of the early-release thread |
| `Client.WorkFlagIsActivity` | src/client.c:396-484 | over every interleaving, the work flag says whether a thread passed the gate or a LOCK_OK came since the interval began |
| `Client.EarlyReleaseJustified` | src/client.c:396-484 | an early release happens if and only if the client is on, owns the lock, probes idle, and there was no activity in the whole interval |
| `Connections.DropIsNeverStale` | src/client.c:308-319 | on one connection, a drop that is acted on is of the round that gave the lock; one for a returned round changes nothing |
| `Tokens.TokensMoved` | src/scheduler.c:464-494 | every scheduler step short of a stale release keeps one token on the holder's connection and none elsewhere |
| `Tokens.TokensClientMoved` | src/client.c:293-352 | so does every client step |
| `Tokens.StaleReleaseBreaks` | src/scheduler.c:478-494 | a stale release does not |
| `SingleToggle.NoStaleRelease` | src/scheduler.c:420-446 | with at most one OFF-then-ON toggle the head's release is always of the current grant |
| `ProtocolTheorems.ModeAgreement` | src/scheduler.c:196-219 | in every run: unread statuses lead from the client's mode to the scheduler's, no grant or drop between OFF and ON, locally off implies owning, the first message is a status |
| `ProtocolTheorems.NoLostRequest` | src/client.c:88-99 | in every run: a client that needs the lock does not own it, and a request is in flight or queued, or a LOCK_OK or SCHED_OFF is on its way |
| `ProtocolTheorems.StaleDropSafety` | src/client.c:308-319 | in every run: a drop that makes a client release was sent in the round of the grant it owns by; leftovers are ignored |
| `ProtocolTheorems.DropIsObeyed` | src/client.c:308-319 | in every run: a client that reads a DROP_LOCK does not own the lock afterwards, and if it did it has sent LOCK_RELEASED for that very round |
| `ProtocolTheorems.GrantIsTaken` | src/client.c:298-305 | in every run: a client that reads a LOCK_OK owns the lock, needs it no longer and wakes its threads |
| `ProtocolTheorems.ModeIsFollowed` | src/client.c:320-341 | in every run: SCHED_OFF gives the client the lock and wakes its threads, SCHED_ON takes it away |
| `ProtocolTheorems.GateIsKept` | src/client.c:73-106 | in every run: a thread passes if and only if the client owns the lock; otherwise it sleeps, and one REQ_LOCK is sent exactly when none is pending |
| `Demand.DemandConservation` | src/client.c:88-99 | in every run without a toggle: REQ_LOCK in flight, a queued ungranted request and LOCK_OK in flight add up to one for a client that needs the lock and to zero for one that does not |
| `ProtocolTheorems.TokenConservation` | src/scheduler.c:295-316 | grants in flight, ownership and releases in flight add up to one on the holder's connection and to zero on every other |
| `ProtocolTheorems.TokensWithoutToggle` | src/scheduler.c:464-494 | in every run without a toggle: LOCK_OK messages in flight, 1 for `own_lock`, and LOCK_RELEASED messages in flight add up to one on the holder's connection and to zero on every other |
| `ProtocolTheorems.MutualExclusion` | src/client.c:293-352 | up to the first stale release at most one up-to-date client owns the lock; it is the queue head and owns it by the current grant |
| `ProtocolTheorems.OneToggleIsSafe` | src/scheduler.c:420-446 | a run with at most one OFF-then-ON toggle reads no stale release |
| `ProtocolTheorems.MutualExclusionOneToggle` | src/client.c:320-341 | at most one client that has read the SCHED_ON owns the lock after a single toggle |
| `ProtocolTheorems.ConservingExactly` | src/scheduler.c:478-494 | a step keeps the tokens conserved if and only if it does not read a stale release |
| `Owners.OwnersMoved` | src/scheduler.c:464-494 | every scheduler step short of a harmful release keeps at most one claim to the lock, on the holder's connection |
| `Owners.OwnersClientMoved` | src/client.c:293-352 | so does every client step |
| `Owners.HarmIsStale` | src/scheduler.c:478-494 | while tokens are conserved, only a stale release is harmful |
| `Exclusion.ExclusiveExactly` | src/scheduler.c:478-494 | a step keeps ownership exclusive if and only if it does not read a release from a holder that owns the lock or has a LOCK_OK in flight |
| `Exclusion.HarmNeedsStale` | src/scheduler.c:420-494 | a run without stale releases, such as one with a single toggle, has no harmful one |
| `Exclusion.ExclusionWithoutHarm` | src/client.c:293-352 | in every run up to its first harmful release, however many stale ones are read: two up-to-date owners are the same client, the queue head |
| `ExclusionLost.HarmLeadsToTwoOwners` | src/scheduler.c:478-494 | after every harmful release the system can go on to a state with two up-to-date owners |
| `ExclusionLost.FirstHarmIsFatal` | src/scheduler.c:478-494 | the same for the first harmful release of a run |
| `DoubleToggle.TwoTogglesBreakMutualExclusion` | src/scheduler.c:420-494 | a reachable state, two toggles in, in which two up-to-date clients own the lock |
| `Counterexamples.SecondRegisterStrands` | src/scheduler.c:402-410 | a reachable state with a queue and a free lock |
| `Counterexamples.CoincidingTimeoutForgets` | src/scheduler.c:352-366 | a reachable state in which the holder's quantum is no longer enforced |
| `LinkedList.Append` | src/utlist.h:343-354 | on linked nodes: the list becomes the old one with the node at its end |
| `LinkedList.Delete` | src/utlist.h:390-404 | the list without the node, or unchanged if the node is not in it; reads and writes live nodes of the list only, does not change the unlinked node |
| `LinkedList.RemoveWhere` | src/utlist.h:424-425 | deleting and freeing while iterating leaves a list of exactly the spared nodes, in order and live, and frees exactly the others, each once, although a freed node may hold any pointer |
| `NodeLists.InsertRequest` | src/scheduler.c:123-137 | on linked nodes, the queue that `insert_req` leaves is the one of the model on sequences |
| `NodeLists.RemoveRequest` | src/scheduler.c:146-154 | the same for `remove_req`; exactly the client's requests are freed |
| `NodeLists.RemoveEntries` | src/hook.c:296-304 | the same for the list of allocations |
| `NodeLists.UnlistClient` | src/scheduler.c:109-115 | which nodes are left, and which are freed, as a function of what the client's memory reads as after it is freed |
| `NodeLists.UnlistedExactly` | src/scheduler.c:109-115 | under given contents of freed memory exactly the client is gone if and only if no later client matches them |
| `NodeLists.UnlistedWhateverMemory` | src/scheduler.c:109-115 | this holds for all contents if and only if the client is the last one listed |
| `NodeLists.SecondClientVanishes` | src/scheduler.c:109-115 | a run of the loop on two clients that removes both |
| `NodeLists.Broadcast` | src/scheduler.c:209-219 | the walk that deletes by a second walk over the same list keeps going: who is left and who was told, when freed memory does not come to read like a listed client |
| `NodeLists.BroadcastIsModel` | src/scheduler.c:209-219 | those are the clients and the statuses of the model on sequences, one status each |
| `ListSort.PassDoublesRuns` | src/utlist.h:125-168 | a pass turns sorted runs of length k into sorted runs of length 2k |
| `ListSort.PassStable` | src/utlist.h:139-161 | a pass keeps the order of nodes that compare equal |
| `ListSort.MergeRuns` | src/utlist.h:138-160 | the pointer surgery of the inner loop is the merge of the two runs, in front of an untouched rest |
| `ListSort.Pass` | src/utlist.h:125-167 | one pass over the list relinks it as merged pairs of runs; one merge or none exactly when the list is at most two runs |
| `ListSort.Sort` | src/utlist.h:113-171 | terminates for every length; same nodes, ending in null, sorted, equal nodes in their old order, for every total preorder |
| `Numerals.NumeralValue` | src/snprintf.c:1409-1422 | reading the digits in their base gives the number |
| `Numerals.ConvertFits` | src/snprintf.c:449-455 | a 64-bit number has at most 22 digits in every base from 8 on, so the buffer never truncates |
| `Numerals.Convert` | src/snprintf.c:1409-1422 | the buffer holds the low digits in reverse, all of them if they fit |
| `Numerals.GroupedCount` | src/snprintf.c:1370-1386 | the digit loop writes as many separators as announced and only inserts them |
| `Numerals.SeparatorPlaces` | src/snprintf.c:1054-1059 | counted from the right, exactly every fourth character is a separator |
| `Fields.ReadBack` | src/snprintf.c:965-1064 | every integer field without separators, read the way strtol reads, gives the value |
| `Fields.ReadBackGrouped` | src/snprintf.c:965-1064 | with separators too, once they are taken out |
| `Fields.FieldWidth` | src/snprintf.c:1014-1027 | length of the field: width, or larger of precision and digits with sign and prefix |
| `Fields.FieldReachesWidth` | src/snprintf.c:1014-1027 | if and only if condition for a field to be as wide as asked, separators included |
| `Fields.ShortField` | src/snprintf.c:1014-1027 | a field that comes out too narrow |
| `Fields.LostOctalZero` | src/snprintf.c:994-1017 | an octal field in alternative form without its zero |
| `Fields.OctalAlternative` | src/snprintf.c:994-1012 | if and only if condition for the alternative octal form to start with a zero |
| `FieldLaws.IntFieldLaw` | src/snprintf.c:965-1064 | an integer field is blanks, sign, prefix, zeros, digits, blanks, each told from the arguments: side of the padding, number of zeros, value of the digits, total width |
| `FieldLaws.IntFieldCase` | src/snprintf.c:1412-1412 | letters are capital exactly for the upper-case conversion |
| `FieldLaws.StringFieldLaw` | src/snprintf.c:931-963 | a string field shows the string up to its precision, padded with blanks to its width on the side that the `-` flag says |
| `Output.Sink.Put` | src/snprintf.c:507-512 | counts every character, keeps it only while there is room for it and a NUL |
| `Output.Sink.FmtStr` | src/snprintf.c:931-963 | string field: "(null)", precision, padding on either side |
| `Output.Sink.FmtInt` | src/snprintf.c:965-1064 | integer field: sign, prefix, zeros, digits, separators, padding |
| `Formatter.WidthStep` | src/snprintf.c:603-626 | scanning a width, with the int overflow test, means the decimal number that stands there or its argument |
| `Formatter.PrecisionStep` | src/snprintf.c:634-657 | the same for a precision |
| `Formatter.ModifierStep` | src/snprintf.c:658-694 | length modifiers; never reads past the NUL |
| `Formatter.Convert` | src/snprintf.c:695-911 | what each conversion prints, stores and consumes |
| `Formatter.Step` | src/snprintf.c:563-917 | one turn of the scan keeps the ideal output and comes closer to the end |
| `Formatter.Vsnprintf` | src/snprintf.c:527-929 | for every size, place by place: the first min(len, size-1) characters of the ideal output, a NUL, and what was there before; return value (-1 from INT_MAX on), errno and `%n` stores do not depend on the size |
| `FormatTheorems.EscapeRoundTrip` | src/snprintf.c:563-571 | a text with its percent signs doubled prints as itself |
| `Spelling.SpellingRoundTrip` | src/snprintf.c:572-694 | a directive written out anywhere in a format is read as what it was: flags, width, precision, length modifier, conversion; TooLarge exactly for a number beyond INT_MAX |
| `Spelling.FlagsExactly` | src/snprintf.c:572-602 | each flag character sets the flag it stands for and no other |
| `FormatTheorems.IntegerField` | src/snprintf.c:695-773 | which integer field a directive asks for: base, sign, case, width, precision and flags |
| `FormatTheorems.IntegerCase` | src/snprintf.c:729-733 | `%X` prints no small letter, the others no capital |
| `FormatTheorems.PointerReadsBack` | src/snprintf.c:836-863 | `%p` prints "(nil)" or a number that reads back in base 16 as the pointer |
| `FormatTheorems.OtherConversions` | src/snprintf.c:827-908 | what `%s`, `%c`, `%n` and `%%` print, store and take |
| `FormatTheorems.IntegerReadsBack` | src/snprintf.c:697-773 | what an integer directive prints, read in base 8 for `o`, 16 for `x` and `X` and 10 otherwise, is its argument modulo 2^8, 2^16, 2^32 or 2^64 as its length modifier says, signed for `d` and `i` |
| `FormatTheorems.Vasprintf` | src/snprintf.c:1488-1502 | the allocated string is the whole ideal output and a NUL |
| `KernelWindow.Limiter.Launch` | src/hook.c:802-836 | count and window after a launch, for every sync duration |
| `KernelWindow.Limiter.SyncContext` | src/client.c:59-67 | a sync for the scheduler resets the window |
| `KernelWindow.WindowBounds` | src/hook.c:802-836 | over every sequence of launches, durations and resets the window is a power of two in 1..2048 and at most 2048 launches go between syncs |
| `KernelWindow.SmoothLaunchCost` | src/hook.c:802-836 | N launches with quick syncs cost floor(log2(N+1)) syncs up to 4095 and 12 + floor((N-4095)/2048) beyond |
| `KernelWindow.SyncsExactly` | src/hook.c:802-836 | whatever the durations and resets, a launch synchronises if and only if it makes 2^level since the last sync, where the level is told from the syncs alone |
| `KernelWindow.SpacingLaw` | src/hook.c:813-832 | launches to the next sync: one after a sync of 10 seconds or more, half as many after one of at least a second, twice as many up to 2048 after a shorter one |
| `KernelWindow.LevelMoves` | src/hook.c:813-832 | k slow syncs in a row bring a window of 2^j down to 2^max(0, j-k), k quick ones up to 2^min(11, j+k) |
| `KernelWindow.ResetLaw` | src/client.c:59-67 | after a context sync the very next launch synchronises |
| `AllocationLedger.Ledger.InsertAllocation` | src/hook.c:273-288 | the list grows by the entry, the sum by its size |
| `AllocationLedger.Ledger.RemoveAllocation` | src/hook.c:291-305 | exactly the entries at the pointer leave the list, the sum shrinks by their sizes |
| `AllocationLedger.Ledger.MemAlloc` | src/hook.c:646-682 | refusal, driver failure and success; what is recorded |
| `AllocationLedger.Ledger.MemFree` | src/hook.c:685-695 | the entry goes if and only if the driver freed it |
| `AllocationLedger.SubtractedIsLive` | src/hook.c:296-304 | subtracting the sizes of the entries at a pointer one by one, with wrap-around, leaves the total of the rest |
| `AllocationLedger.SumIsLive` | src/hook.c:273-305 | over every history of additions and entry-by-entry subtractions the sum is that of the live list modulo 2^64 |
| `AllocationLedger.LimitKeptExactly` | src/hook.c:662-670 | an accepted allocation keeps the live sum within the limit if and only if it does not wrap |
| `AllocationLedger.AcceptedExactly` | src/hook.c:662-678 | short of a wrap, a request is recorded if and only if it fits into total memory minus 1536 MiB |
| `AllocationLedger.LedgerLimit` | src/hook.c:740-741 | histories without a wrap never exceed total memory minus 1536 MiB |
| `AllocationLedger.WrapBeatsTheLimit` | src/hook.c:662-670 | a history that does |
| `Framing.WriteWhole` | src/common.c:75-90 | however the kernel splits the write, the stream grows by the buffer, or on an error by a part of it |
| `Framing.ReadWhole` | src/common.c:93-109 | however the bytes arrive, also while the other end goes on writing, the buffer gets the next ones of the stream, all asked for unless the stream ends; the rest of the buffer is untouched |
| `Framing.SendAll` | src/common.c:75-90 | messages written one after the other are concatenated in the stream |
| `Framing.ReceiveAll` | src/common.c:93-109 | calls of `read_whole` while the other end goes on writing return whole messages in order: the k-th message read is the k-th one written |
| `Framing.Interleaved` | src/common.c:75-109 | messages read from the front of what was sent so far are the first ones written, and all of them once everything was sent and read |
| `Framing.ServeClient` | src/scheduler.c:646-651 | the scheduler sees only whole messages, the first ones sent, in order; the first short or failed read deletes the client |

## Left out

- Sockets, epoll, directories and logging: a send or a receive succeeds or fails, and every pattern of failures is a run. Errors that end the process are not steps.
- Two events of one epoll batch for a client that the first of them deletes: each event names a client that is still listed.
- Scheduler.Server.DeleteClient: takes the descriptor by value, where the loop reads it again from the client's node after freeing it; `NodeLists.UnlistClient` has that loop.
- NodeLists.Broadcast: assumes that freed memory does not come to read like a listed descriptor; without that the walk itself may follow a freed node.
- Values of freed nodes: the model forgets the `next` pointer of a freed node; its value is only read by accessors that ask for a live node, and in `UnlistClient` from a parameter.
- The client list, the queue and the ledger of the classes are sequences; `NodeLists` proves the node-level loops equal to them one operation at a time, not whole runs on nodes.
- Clients that lost their connection: a client that still believes it owns the lock after the scheduler deleted it is outside mutual exclusion, which is stated over connected clients.
- The driver call after the gate: ownership is the `own_lock` flag; the mutex is released before the kernel is launched.
- Liveness in real time: clocks and durations appear only as interval start, timeout and signalled wake.
- Wrap-around of the unsigned round counter: rounds are natural numbers.
- Client ids are drawn from any sequence of 64-bit values that contains an acceptable one; the random generator and names of pods are not modelled, nor the id that a status message carries.
- CUDA and NVML calls, symbol lookup and the reporting half of the memory query in src/hook.c: driver results are parameters, and a hooked call before the library found its symbols is not modelled.
- Unsynchronised calls into the ledger from several threads: it is modelled sequentially, as it has no lock.
- Floating-point conversions: their text is a parameter of the formatter, any function of the conversion; rounding and the `fmtflt` code are not modelled.
- Undefined behaviour in the formatter: a `*` width of INT_MIN and the negation of INTMAX_MIN take their mathematical values, paddings and string lengths do not overflow an int, `len` does not wrap.
- Locale support in the formatter: group separators are single commas.
- Overflow of the int run length in the list sort: run lengths are natural numbers.
- The doubly linked and circular list macros and the variants without typeof.
- src/xopt.c, src/cli.c and the Kubernetes device plugin: they would only add easy members.
