# TunnelEx core: a Dafny model and its proofs

TunnelEx is a tunnelling server. Its core library drives each connection by asynchronous
completions, hands message blocks of finite pools between the two sides of a tunnel, keeps
registries of rules, tunnels and services, and stores rule sets as XML. This project models
those parts and proves what they promise: over every run of a protocol, for every input of
a parser or a conversion. Where a promise does not hold, the project gives the exact
condition under which it does, and an input that shows why it is needed.

| module | file | source |
|---|---|---|
| RwSpinMutex, RwSpinMutexProgress, RwSpinMutexLimit (with Bits) | rw_spin_mutex.dfy, rw_spin_mutex_progress.dfy, rw_spin_mutex_limit.dfy, bits.dfy | sources/Core/Locking.hpp |
| Connection, ConnectionRuns, IdleTimer | connection.dfy, connection_runs.dfy, idle_timer.dfy | sources/Core/Connection.cpp |
| MessageBlocks, MessageBlockHolder | message_blocks.dfy, message_block_holder.dfy | sources/Core/MessageBlockHolder.cpp |
| Relay | relay.dfy | sources/Core/Connection.cpp, Tunnel.cpp |
| Tunnels | tunnel.dfy | sources/Core/Tunnel.cpp |
| Allocators | allocators.dfy | sources/Core/Acceptor.cpp, Connection.cpp |
| Calendar, Asn1Time, Asn1Grammar | calendar.dfy, asn1_time.dfy, asn1_grammar.dfy | sources/Common/Crypto.hpp |
| XmlTree, RuleSchema, RuleXml, RuleDocuments, RuleMeaning | xml_tree.dfy, rule_schema.dfy, rule_xml.dfy, rule_documents.dfy, rule_meaning.dfy | sources/Core/Rule.cpp, RuleSet.xsd |
| Registry, RuleCheck | registry.dfy, rule_check.dfy | sources/Core/ServerWorker.cpp |
| UrlCodec | url_codec.dfy | sources/Common/StringUtil.hpp |

## How it is modelled

- An object whose methods change its fields is a class, and each of its methods is proved
  equal to a function on the values of those fields. The properties over runs are about
  these functions, for every order of calls and completions.
- Library calls are abstract: allocators are finite pools, the proactor is the set of its
  outstanding operations, libxml is a tree. What the outside answers (was the timer
  cancelled, was the read issued, did a service start, what time is it) is a parameter, and
  the proofs hold for every answer.
- The lock is modelled as atomic steps of any number of threads on one word with all its
  bits; `long` words are the natural numbers below 2^32, added modulo 2^32. ReleaseWrite is
  two steps, a read and an exchange.
- Connections are interleaved finely: RemoveRef decrements outside the lock (Connection.cpp:305),
  and CheckedDelete decrements at line 270 and tests at line 272 in two steps. At that
  granularity OnConnectionClosed can be signalled twice (`ConnectionRuns.ClosedTwice`): a
  RemoveRef may reach zero between the two. Taking 270-272 as one step excludes that
  (`ConnectionRuns.AtomicDeleteClosesOnce`).
- Tunnels joins the destructor of a tunnel with the fine-grained runs of its two to four
  connections: every signal that one of them sends is one OnConnectionClosed of the tunnel.
- In Relay each completion handler is one step, including the release of the block it was
  given. The other side of the tunnel is there as the writes it has not completed. The
  tunnel counts as asked to close only where the object's reaction asks it: an exception that
  leaves StartReading or the completion of a write asks nobody. Each step is proved to be what
  the object does (`Relay.StartIsTheObject`, `WrittenIsTheObject`, `DataIsTheObject`).
- Time in IdleTimer is whole seconds, as in the source, and timers fire when they are due.
  Its runs are made of the connection's own reads and writes. The latest activity is the
  maximum of the times at which data came or a write was issued; what is stored is the time
  that was recorded last.
- 32-bit overflow is checked, not assumed away: the ASN.1 conversion uses 32-bit integers
  where the source uses int and 64-bit ones where it uses time_t.

## Where the code differs from what its comments, asserts or callers expect

Each item names the lemma with the exact condition, and where it is another one, the lemma
with the input or the run.

- Lock: 2^30 readers look like the wait bit. Exclusion survives exactly up to 2^30 threads
  (`RwSpinMutexLimit.ExclusionIsBounded`), the asserts and the meaning of the wait bit
  exactly below 2^30 (`RwSpinMutexLimit.WaitBitIsBounded`, `QuietWordIsBounded`,
  `ReleaseReadIsBounded`).
- Reference count: a timer that is started by a setup reported after Close can drop a
  reference that nobody left to it. The count is exact in all runs if and only if setup
  success is never reported after Close or there is no idle timeout
  (`ConnectionRuns.LedgerIsExact`); for every timeout a run brings it to -1
  (`ConnectionRuns.LateTimerBreaksTheLedger`).
- OnConnectionClosed: a RemoveRef that reaches zero between the decrement and the test of a
  CheckedDelete makes both signal (`ConnectionRuns.ClosedTwice`,
  `ConnectionRuns.AtomicDeleteClosesOnce`).
- Tunnel: by such a second signal the tunnel counts more connections closed than it has, and
  its destructor returns before the last of them has signalled. Every tunnel has a run for
  each of the two (`Tunnels.EveryTunnelShows`); neither happens if and only if the decrement
  and the test are one step (`Tunnels.EachFlawNeedsTwoSteps`,
  `Tunnels.ReturnsOnlyWhenAllSignalled`).
- Resuming a read: with one satellite only, or when an exception leaves StartReading, the
  completion of a write, or the passing on of data, a connection may wait for a read that
  nobody issues and that the tunnel has not heard of (`Relay.TwoAreNeeded`;
  `Relay.LostInItsWrites` for writes and any number of satellites; `Relay.StepKeeps` for the
  exact steps).
- StartReading and StopReading while a stop is pending break the rule of one read at a time
  (`ConnectionRuns.ReadInvStep`, `ConnectionRuns.TwoReads`, `ConnectionRuns.OneReadIsBounded`).
- Idle timeout: when activities are recorded in another order than they were done, a
  connection may be closed less than the interval after its latest activity
  (`IdleTimer.EarlyWhenOutOfOrder`, `IdleTimer.OrderIsNeeded`), and later than the interval
  after the stored one (`IdleTimer.LateWhenOutOfOrder`).
- SetData on a block that has a live duplicate leaves the duplicate without its satellite
  (`MessageBlocks.SetDataKeeps`, `MessageBlocks.SharedSetDataBreaks`).
- After one request of more than 2 * 150 * 1024 - 4 bytes no request is met any more
  (`Allocators.RequestsAreMet`, `Allocators.OneLargeRequestEndsThem`).
- A time next to the epoch that is written with a zone may be refused
  (`Asn1Time.ZonedConverts`, `Asn1Time.RefusedNextToTheEpoch`).
- Registry: a service rule that is disabled, that is updated while as many rules are active
  as licensed, or whose services do not all start again, stays active without a service
  (`Registry.ServiceUpdateLeavesAnEmptyRule`, `Registry.ServiceRulesAreServed`,
  `Registry.RefusedAtTheLimit`); deleting a service rule stops one of its services only
  (`Registry.OneServiceIsStopped`, `Registry.ServiceOutlivesItsRule`); updating a tunnel rule
  takes out one of its tunnels only (`Registry.OneTunnelIsReplaced`,
  `Registry.TunnelOutlivesItsRule`).
- CheckTunnelRules: it means to go on when the licence refuses a rule, but Update rethrows
  the LicenseException by the type of its base class (ServerWorker.cpp:624-626), so that any
  error ends the pass (`RuleCheck.SlicingEndsThePass`), and the rules it has not come to wait
  no more. A pass loses none if and only if every rule before the last is licensed or active,
  has its inputs opened and its setups started (`RuleCheck.PassTriesAll`); some pass of some
  run loses one if and only if the licence allows any rule and any tunnel at all
  (`RuleCheck.WaitingRulesAreLost`, `RuleCheck.ErrorLosesARule`, `RuleCheck.RefusalLosesARule`).
- DecodeUrl on a part of a string may run past the end of that part
  (`UrlCodec.OverrunsAtCutTriple`, `UrlCodec.OverrunsInTheMiddle`).
- Rule sets: the schema lets an input's combined address go without IsAcceptor, but the
  parser refuses it (`RuleDocuments.MatchingDocumentLoads`,
  `RuleDocuments.SilentAddressIsRefused`).
- Opening a connection in write mode creates no write stream (Connection.cpp:362-470): it can
  never send (`ConnectionRuns.OnlyReadersSend`), so nothing reaches the remote end of a side
  with two connections (`Tunnels.SplitSidesNeverWrite`).

## Model

| member | source | states |
|---|---|---|
| RwSpinMutex.MutualExclusion | sources/Core/Locking.hpp:159-207 | at every interleaving of fewer than 2^30 threads: one writer and nobody else, or readers only; the writer bit is set iff a thread holds the lock for writing; the low 30 bits count the readers |
| RwSpinMutex.WaitBitHasAnAcquirer | sources/Core/Locking.hpp:159-179 | whenever the wait bit is set some thread is inside AcquireWrite |
| RwSpinMutex.QuietWordIsZero | sources/Core/Locking.hpp:148-150 | the destructor's assert: with no holder and no acquirer the word is exactly 0 |
| RwSpinMutex.ReleaseReadAlwaysCounts | sources/Core/Locking.hpp:192-207 | the assert of ReleaseRead never fails for a holder, and it leaves only by taking one reader off the word |
| RwSpinMutex.Masks | sources/Core/Locking.hpp:134-139 | what the overlapping masks give on a word of writer bit, wait bit and reader count |
| RwSpinMutex.StepInv | sources/Core/Locking.hpp:159-207 | every step of every thread keeps the invariant behind these results |
| RwSpinMutexProgress.WriterGetsIn | sources/Core/Locking.hpp:159-179 | from any run of fewer than 2^30 threads: a thread at the head of AcquireWrite that takes two steps holds the lock for writing if and only if nobody held it |
| RwSpinMutexProgress.WaiterMarks | sources/Core/Locking.hpp:168-173 | if somebody holds it, a third step leaves the wait bit set and nothing else changed |
| RwSpinMutexProgress.ReaderGetsIn | sources/Core/Locking.hpp:181-190 | a thread at the head of AcquireRead that takes two steps holds the lock for reading, and is counted, if and only if nobody held it for writing |
| RwSpinMutexProgress.OutsiderAsks | sources/Core/Locking.hpp:159-190 | a thread outside asks for the lock it wants |
| RwSpinMutexProgress.WriterLeavesTheBit | sources/Core/Locking.hpp:175-179 | ReleaseWrite puts back exactly the wait bit that it read, whatever the others do in between |
| RwSpinMutexProgress.ReaderLeaves | sources/Core/Locking.hpp:192-207 | ReleaseRead, left alone, takes itself off the count in three steps and keeps the wait bit |
| RwSpinMutexProgress.NobodyIsStuck | sources/Core/Locking.hpp:159-207 | at any time of any run a thread that is left alone gets in, unless the holders forbid it, or out, within four steps |
| RwSpinMutexLimit.ExclusionIsBounded | sources/Core/Locking.hpp:134-207 | the lock excludes at every interleaving if and only if there are at most 2^30 threads |
| RwSpinMutexLimit.StepIsSafe | sources/Core/Locking.hpp:159-207 | the invariant behind that: what of the word's meaning is left when 2^30 threads read at once |
| RwSpinMutexLimit.TooManyReaders | sources/Core/Locking.hpp:134-139 | with more than 2^30 threads some schedule gives a writer and a reader at once |
| RwSpinMutexLimit.WaitBitIsBounded | sources/Core/Locking.hpp:159-179 | the wait bit always has an acquirer if and only if there are fewer than 2^30 threads |
| RwSpinMutexLimit.QuietWordIsBounded | sources/Core/Locking.hpp:148-150 | the destructor's assert holds in all runs if and only if there are fewer than 2^30 threads |
| RwSpinMutexLimit.ReleaseReadIsBounded | sources/Core/Locking.hpp:192-207 | so does the assert of ReleaseRead |
| Connection.Implementation.constructor | sources/Core/Connection.cpp:218-243 | a new connection has no reference, is not open and has no timer |
| Connection.Implementation.Open | sources/Core/Connection.cpp:318-479 | the first Open sets the reading state and takes one reference, or throws for the stream that could not be opened; another one throws, or only replaces the signal |
| Connection.Implementation.CheckedDelete | sources/Core/Connection.cpp:256-300 | closes; parks the reference on a timer it cannot cancel, or drops it and signals when none is left |
| Connection.Implementation.RemoveRef | sources/Core/Connection.cpp:303-314 | drops a reference; at zero goes on as CheckedDelete without one |
| Connection.Implementation.Close | sources/Core/Connection.cpp:481-491 | drops the reference of Open |
| Connection.Implementation.SendToRemote | sources/Core/Connection.cpp:495-539 | a write takes one reference, exactly when the connection is open, the block could be duplicated and the write was issued; otherwise nothing changes, with each outcome |
| Connection.Implementation.OnMessageBlockSent | sources/Core/Connection.cpp:543-559 | a tunnel message resumes a read that waits for a block, or asks the tunnel to close; any other message does nothing |
| Connection.Implementation.InitMessageReading | sources/Core/Connection.cpp:973-1027 | issues a read exactly from the not-reading state, with one reference; each failure has its reaction |
| Connection.Implementation.StartReading | sources/Core/Connection.cpp:586-603 | makes a read due and tries to issue it |
| Connection.Implementation.StopReading | sources/Core/Connection.cpp:605-612 | a read under way is left to finish, otherwise reading is not started |
| Connection.Implementation.CancelReadingState | sources/Core/Connection.cpp:853-867 | the reading state after a completed read |
| Connection.Implementation.HandleReadData | sources/Core/Connection.cpp:906-928 | a read that brought data passes it on and issues the next read unless it was stopped; a LocalException asks the tunnel to close in every reading state, any other escapes |
| Connection.Implementation.HandleReadEnd | sources/Core/Connection.cpp:876-904 | a failed or empty read asks the tunnel to close, closes and drops its reference |
| Connection.Implementation.HandleReadStream | sources/Core/Connection.cpp:869-934 | the whole handler: when it asks the tunnel to close, and that the reference of the read is dropped on every path but one, an escaping exception |
| Connection.Implementation.HandleWriteStream | sources/Core/Connection.cpp:965-971 | the reference of the write is dropped unless the reader's OnMessageBlockSent throws |
| Connection.Implementation.HandleTimeOut | sources/Core/Connection.cpp:682-723 | drops a parked reference and says how that CheckedDelete ended, or sleeps for the rest of the interval, or expires |
| Connection.Implementation.UpdateIdleTimer | sources/Core/Connection.cpp:1029-1042 | records an activity while a timer is set |
| Connection.Implementation.OnSetupSuccess | sources/Core/Connection.cpp:561-572 | completes the setup and signals the tunnel, or leaves it pending; starts the idle timer |
| Connection.Implementation.OnSetupFail | sources/Core/Connection.cpp:574-582 | the setup is failed |
| Connection.UnissuedReadIsHeard | sources/Core/Connection.cpp:973-1027 | a due read that found a block and was not issued is never passed over: refused, it asks to close; anything else throws; nothing else is reported |
| Connection.OpenAnswers | sources/Core/Connection.cpp:318-479 | when Open succeeds, which of its errors it throws, and that a failed or repeated Open changes nothing |
| Connection.ClosedIsHeard | sources/Core/Connection.cpp:495-559 | a completion on a closed connection asks the tunnel to close, and a write to it is dropped |
| ConnectionRuns.RefLedger | sources/Core/Connection.cpp:256-314 | in every run the count is the references still owed by Open, reads, writes and a parked timer, less one a late timer may have taken |
| ConnectionRuns.LedgerIsExact | sources/Core/Connection.cpp:256-314 | the count is exactly what is owed in all runs if and only if setup success is never reported after Close or the idle timeout is off |
| ConnectionRuns.StealingSteps | sources/Core/Connection.cpp:256-723 | the two steps by which a reference is taken: a RemoveRef at zero that finds a fired timer, and that timer's handler |
| ConnectionRuns.IncrementsFindALiveCount | sources/Core/Connection.cpp:527-530 | outside Open every increment finds a count of at least 1, as the comments claim |
| ConnectionRuns.LateTimerBreaksTheLedger | sources/Core/Connection.cpp:1044-1073 | for every idle timeout a run in which setup success after Close brings the count to -1 |
| ConnectionRuns.ClosedMeansQuiet | sources/Core/Connection.cpp:272-285 | OnConnectionClosed is signalled only at count zero, with no reference owed and no timer scheduled or under way |
| ConnectionRuns.ClosedExactlyOnce | sources/Core/Connection.cpp:256-314 | when everything is settled the signal was sent, and once iff no RemoveRef reached zero inside a CheckedDelete |
| ConnectionRuns.ClosedTwice | sources/Core/Connection.cpp:270-274 | a run with two signals |
| ConnectionRuns.AtomicDeleteClosesOnce | sources/Core/Connection.cpp:270-274 | with decrement and test in one step the signal is sent exactly once |
| ConnectionRuns.CloseIsOneCheckedDelete | sources/Core/Connection.cpp:481-491 | the two steps of the runs together are CheckedDelete of the object |
| ConnectionRuns.ReleaseIsOneRemoveRef | sources/Core/Connection.cpp:303-314 | the two steps of the runs together are RemoveRef of the object |
| ConnectionRuns.ParkedTimeOutIsOneCheckedDelete | sources/Core/Connection.cpp:682-692 | the two steps for the handler of a parked timer are the object's CheckedDelete and its fate |
| ConnectionRuns.SetupStep | sources/Core/Connection.cpp:561-632 | what every step does to the setup: success completes it or leaves it pending, the first data completes a pending one, failure fails it, nothing else touches it |
| ConnectionRuns.SetupIsDecidedOnce | sources/Core/Connection.cpp:561-632 | in every run a setup that is completed or failed stays so |
| ConnectionRuns.StepInv | sources/Core/Connection.cpp:256-723 | every handler and every call keeps the ledger's invariant |
| ConnectionRuns.ReadInvStep | sources/Core/Connection.cpp:586-612 | a step keeps "reading state iff one read outstanding" exactly when it is not StartReading or StopReading while stopping |
| ConnectionRuns.TwoReads | sources/Core/Connection.cpp:586-612 | for every interval a run with two reads under way: StartReading while a stop is pending |
| ConnectionRuns.OneRead | sources/Core/Connection.cpp:853-1027 | in every such run at most one read is outstanding, exactly in the states reading and stopping |
| ConnectionRuns.OneReadIsBounded | sources/Core/Connection.cpp:586-612 | at most one read is under way in all runs if and only if the two calls are never made while a stop is pending |
| ConnectionRuns.StoppedReadsNoMore | sources/Core/Connection.cpp:605-612 | after StopReading, in whatever state, no read is issued in any run until StartReading |
| ConnectionRuns.ReadingIsOverWhenClosed | sources/Core/Connection.cpp:276-278 | the asserts about the reading state in CheckedDelete and Close |
| ConnectionRuns.OnlyReadersSend | sources/Core/Connection.cpp:362-539 | an opened connection can send in some run if and only if it was opened for reading on a handle; one opened for writing only answers that it cannot write, until it is closed |
| ConnectionRuns.OnlyReadersRead | sources/Core/Connection.cpp:318-603 | in any run StartReading issues a read, if there is a block, exactly on a connection that was opened for reading on a handle |
| IdleTimer.ReschedulesToTheInterval | sources/Core/Connection.cpp:695-712 | every reschedule sleeps a positive time, up to the last recorded activity plus the interval |
| IdleTimer.ExpiresOnlyWhenIdle | sources/Core/Connection.cpp:682-723 | in every run a connection expires no later than the interval after the latest data received or write issued, and after a whole idle interval exactly when its last timer was scheduled for that activity |
| IdleTimer.StoredActivityIsOld | sources/Core/Connection.cpp:682-723 | at expiry the stored activity is at least the interval old, and just that old exactly when the timer was scheduled for it |
| IdleTimer.ExpiresExactly | sources/Core/Connection.cpp:682-723 | with activity recorded in order it expires exactly one interval after the latest data received or write issued |
| IdleTimer.OrderIsNeeded | sources/Core/Connection.cpp:1029-1042 | every run expires on time if and only if activity is recorded in order |
| IdleTimer.EarlyWhenOutOfOrder | sources/Core/Connection.cpp:1029-1042 | for every interval a run that expires less than the interval after the latest activity |
| IdleTimer.LateWhenOutOfOrder | sources/Core/Connection.cpp:1029-1042 | a run in which the stored activity is older than the interval at expiry |
| IdleTimer.DataIsRecorded | sources/Core/Connection.cpp:622-646 | a read that brings data is recorded, with its time, exactly while the timer is set, unless the connection is closed or its setup failed |
| IdleTimer.SendIsRecorded | sources/Core/Connection.cpp:495-539 | SendToRemote is recorded exactly while the timer is set and if the write was issued |
| MessageBlocks.AddressAndCountAreRight | sources/Core/MessageBlockHolder.cpp:328-502 | in every run the address in front of every live block is intact, and its satellite's count is the live blocks on that data; the positions stay beyond the address |
| MessageBlocks.FreedByTheLastDelete | sources/Core/MessageBlockHolder.cpp:467-502 | a satellite is freed exactly by the step that deletes the last block carrying it |
| MessageBlocks.FreedOnce | sources/Core/MessageBlockHolder.cpp:384-502 | in every run a satellite is made at most once, never destroyed before that, and destroyed exactly once if and only if it was made and is no longer there |
| MessageBlocks.FreesCounted | sources/Core/MessageBlockHolder.cpp:467-502 | one operation: destructions and survivors balance creations |
| MessageBlocks.DeleteKeeps | sources/Core/MessageBlockHolder.cpp:467-502 | deleting one of several blocks takes one off the count, deleting the last frees data and satellite |
| MessageBlocks.DuplicateKeeps | sources/Core/MessageBlockHolder.cpp:370-380 | a duplicate is a new live block and keeps the ownership |
| MessageBlocks.CreateKeeps | sources/Core/MessageBlockHolder.cpp:384-465 | a new block comes with a satellite of its own |
| MessageBlocks.CreatedHasRoom | sources/Core/MessageBlockHolder.cpp:384-465 | a block made for a size takes any bytes up to that size and no more, and has nothing to read |
| MessageBlocks.FlagStays | sources/Core/MessageBlockHolder.cpp:384-465 | in every run every block, a duplicate or one made by SetData too, is a tunnel message if and only if the block its satellite was made with was |
| MessageBlocks.CreateAnswers | sources/Core/MessageBlockHolder.cpp:384-465 | when a block is made, when none is for want of a satellite, and when an exception is thrown |
| MessageBlocks.SetDataAnswers | sources/Core/MessageBlockHolder.cpp:572-651 | when SetData succeeds |
| MessageBlocks.PoolsAreRespected | sources/Core/MessageBlockHolder.cpp:384-651 | no run overdraws a pool or puts more into a data block than it has; there are as many satellites as data blocks |
| MessageBlocks.SetDataKeeps | sources/Core/MessageBlockHolder.cpp:572-651 | SetData keeps the ownership exactly when the block has no live duplicate |
| MessageBlocks.SharedSetDataBreaks | sources/Core/MessageBlockHolder.cpp:572-651 | a run (create, duplicate) after which SetData breaks the ownership |
| MessageBlocks.SetDataIsRead | sources/Core/MessageBlockHolder.cpp:572-651 | SetData leaves exactly its bytes to read |
| MessageBlocks.SetDataSparesOthers | sources/Core/MessageBlockHolder.cpp:604-649 | every other block, a duplicate too, reads what it read before |
| MessageBlocks.AppendedIsRead | sources/Core/MessageBlockHolder.cpp:536-554 | what is taken behind the data is read after it |
| MessageBlocks.ReadIsGone | sources/Core/MessageBlockHolder.cpp:556-560 | what was read is gone from the front, the rest stays |
| MessageBlocks.DuplicateReadsTheSame | sources/Core/MessageBlockHolder.cpp:370-380 | a duplicate reads what the block reads |
| MessageBlocks.PerformKeeps | sources/Core/MessageBlockHolder.cpp:370-651 | every operation keeps the ownership |
| MessageBlockHolder.Memory.Create | sources/Core/MessageBlockHolder.cpp:448-465 | step by step; an exception gives back what was taken |
| MessageBlockHolder.Memory.Duplicate | sources/Core/MessageBlockHolder.cpp:370-380 | step by step |
| MessageBlockHolder.Memory.Delete | sources/Core/MessageBlockHolder.cpp:467-502 | step by step: block, data with the last block, reference, satellite with the last reference |
| MessageBlockHolder.UniqueMessageBlockHolder.Duplicate | sources/Core/MessageBlockHolder.cpp:370-380 | the holder keeps its block |
| MessageBlockHolder.UniqueMessageBlockHolder.Reset | sources/Core/MessageBlockHolder.cpp:504-511 | deletes the block it had and owns the new one |
| MessageBlockHolder.UniqueMessageBlockHolder.Release | sources/Core/MessageBlockHolder.cpp:513-516 | gives the block up and changes nothing else |
| MessageBlockHolder.UniqueMessageBlockHolder.SetData | sources/Core/MessageBlockHolder.cpp:572-651 | the block is replaced by one with the new data on the same satellite, or nothing changes and it throws |
| MessageBlockHolder.UniqueMessageBlockHolder.TakeWritableSpace | sources/Core/MessageBlockHolder.cpp:536-554 | appends within the data, or throws |
| MessageBlockHolder.UniqueMessageBlockHolder.Read | sources/Core/MessageBlockHolder.cpp:556-560 | moves the read position |
| Relay.PoolIsEnough | sources/Core/Connection.cpp:339-353 | with one message block more than satellites no Duplicate and no Create ever throws, and between handlers each message block has its own satellite |
| Relay.NoLostResume | sources/Core/Connection.cpp:543-559 | with two satellites or more, in a run without the steps of StepKeeps, a read that waits for a block has a write under way whose completion restarts it |
| Relay.TwoAreNeeded | sources/Core/Connection.cpp:543-917 | no run loses a resume if and only if there are two satellites or more and no exception leaves StartReading, a completed write or the passing on of data |
| Relay.LostInItsWrites | sources/Core/Connection.cpp:543-559 | with any number of satellites, writes whose restarted reads throw lose the resume |
| Relay.StepKeeps | sources/Core/Connection.cpp:876-1027 | every handler keeps the pool; with two satellites or more it keeps the resume exactly when no exception escapes while no other block is being written |
| Relay.BlocksAreTunnelMessages | sources/Core/MessageBlockHolder.cpp:438-440 | in every run every block that is read or written is a tunnel message, so that its completion restarts the read |
| Relay.StartIsTheObject | sources/Core/Connection.cpp:586-603 | the step of StartReading is the object's: its state, and that the tunnel was asked to close exactly if the object's reaction asks it |
| Relay.WrittenIsTheObject | sources/Core/Connection.cpp:543-559 | the same for the completion of a write |
| Relay.DataIsTheObject | sources/Core/Connection.cpp:906-928 | the same for a read that brought data |
| Relay.DuplicateTight | sources/Core/MessageBlockHolder.cpp:370-380 | a duplicate always finds the extra message block |
| Relay.CreateTight | sources/Core/MessageBlockHolder.cpp:448-465 | a block is created exactly while a satellite is free |
| Tunnels.Tunnel.constructor | sources/Core/Tunnel.cpp:199-217 | a new tunnel waits for each of its distinct connections |
| Tunnels.Tunnel.Init | sources/Core/Tunnel.cpp:296-357 | each distinct connection that is not set up is counted once, in the order of opening; an exception of any of them is passed on and nothing is counted |
| Tunnels.Tunnel.OnConnectionClosed | sources/Core/Tunnel.cpp:674-680 | counts, and wakes the destructor when all are there |
| Tunnels.Tunnel.Destroy | sources/Core/Tunnel.cpp:363-402 | which connections are closed, and that the wait ends exactly when enough signals came |
| Tunnels.EachIsClosedOnce | sources/Core/Tunnel.cpp:367-376 | the destructor closes each of the 2 to 4 distinct connections once |
| Tunnels.ToCloseCountsTheRest | sources/Core/Tunnel.cpp:296-357 | connectionsToClose is the number of distinct connections not yet set up |
| Tunnels.DestructorWaitsForAll | sources/Core/Tunnel.cpp:363-402 | over every run of the connections with an atomic CheckedDelete: never more signals than connections, the wait can end exactly when every connection has signalled, and the destructor returns only then |
| Tunnels.AtomicDeleteIsNeeded | sources/Core/Tunnel.cpp:363-402 | this accounting holds in all runs if and only if CheckedDelete decrements and tests in one step |
| Tunnels.EachFlawNeedsTwoSteps | sources/Core/Tunnel.cpp:363-402 | for each of the two failures, too many signals and an early return: no run shows it if and only if CheckedDelete decrements and tests in one step |
| Tunnels.ReturnsOnlyWhenAllSignalled | sources/Core/Tunnel.cpp:363-402 | the destructor returns only after every connection has signalled, in all runs, if and only if CheckedDelete is one step |
| Tunnels.EveryTunnelShows | sources/Core/Tunnel.cpp:363-402 | for every tunnel a run that counts too many signals, and a run that returns while a connection has a read under way and has not signalled |
| Tunnels.StepInv | sources/Core/Tunnel.cpp:363-402 | every step of a connection and of the destructor keeps the count equal to the signals sent |
| Tunnels.OnlyReadersWrite | sources/Core/Tunnel.cpp:296-350 | in every run SendToRemote of a connection that does not read answers that it cannot write, until it is closed |
| Tunnels.BlocksComeBack | sources/Core/Tunnel.cpp:255-294 | the write of a block tells the connection that read it |
| Tunnels.SplitSidesNeverWrite | sources/Core/Tunnel.cpp:255-350 | what is read on one side can be written on the other in some run if and only if that other side has one connection for both directions |
| Allocators.Acceptor.CreateMessageBlock | sources/Core/Acceptor.cpp:34-87 | terminates after one retry, with the pool and the answer of one request; a block has room |
| Allocators.Connection.CreateMessageBlock | sources/Core/Connection.cpp:727-815 | the same for the loop that also creates and enlarges |
| Allocators.RequestStep | sources/Core/Acceptor.cpp:41-85 | one request: met iff nothing was too large; blocks never get smaller |
| Allocators.RequestTakesOne | sources/Core/Acceptor.cpp:34-102 | when a request takes a block of the pool there is and when of a new one, with the size and number of its blocks |
| Allocators.BlocksAreTheLargest | sources/Core/Acceptor.cpp:34-102 | in every run the blocks of the pool are those of the largest request so far, at least of the default size |
| Allocators.RequestsAreMet | sources/Core/Acceptor.cpp:34-102 | over every run a request is met exactly when neither it nor an earlier one exceeds 2 * 150 * 1024 bytes with the header |
| Allocators.OneLargeRequestEndsThem | sources/Core/Acceptor.cpp:34-102 | one byte is granted at first, and not after one request that was too large |
| Calendar.DaysAreCountedOneByOne | sources/Common/Crypto.hpp:285-342 | the day count is the Gregorian calendar: day 0 is 1970-01-01 and each day follows the one before |
| Calendar.SecondsAreCountedOneByOne | sources/Common/Crypto.hpp:285-342 | the value of a time in a zone counts seconds: second 0 is the epoch, each second follows the one before, and an hour to the east is an hour earlier |
| Calendar.YearsUp | sources/Common/Crypto.hpp:328-337 | for every year from 1970 on, every fourth year less the century loop is the count of days |
| Calendar.YearsDown | sources/Common/Crypto.hpp:315-323 | the same for every year before 1970 |
| Calendar.EpochIsStrictlyMonotone | sources/Common/Crypto.hpp:293-342 | later valid dates and times have larger values, and only they |
| Asn1Time.Pint | sources/Common/Crypto.hpp:179-190 | reads exactly n digits, within the range, never past the end of the text; 32 bits suffice |
| Asn1Time.ReadFields | sources/Common/Crypto.hpp:216-252 | fails iff a field is missing or out of range; the two-digit window is 1950 to 2049 |
| Asn1Time.SkipFraction | sources/Common/Crypto.hpp:253-255 | where the fraction ends |
| Asn1Time.ReadZone | sources/Common/Crypto.hpp:266-284 | the offset in minutes, with nothing after it |
| Asn1Time.MonthsByHand | sources/Common/Crypto.hpp:310-313 | the month loop is the days in the months before |
| Asn1Time.LeapDaysByHand | sources/Common/Crypto.hpp:314-337 | the leap-day form with the century loops, within 32 bits |
| Asn1Time.ToEpoch | sources/Common/Crypto.hpp:293-342 | the whole arithmetic is the day count times 86400 plus the time of day, and the guard on the sign |
| Asn1Time.ConvertAsn1TimeToTimeTUtc | sources/Common/Crypto.hpp:194-343 | the value of the text, or the error, for every input |
| Asn1Time.GuardOnlyAround1970 | sources/Common/Crypto.hpp:324-340 | a text with the suffix Z never meets the guard, nor does any zone in a year other than 1969 and 1970 |
| Asn1Time.PrintedIsReadBack | sources/Common/Crypto.hpp:212-284 | printed fields, with any fraction and zone, are read back |
| Asn1Time.NoSecondsAreZero | sources/Common/Crypto.hpp:240-255 | a text without seconds is read as with the seconds 00, in both forms |
| Asn1Time.RoundTrip | sources/Common/Crypto.hpp:212-342 | every valid date and time printed as UTCTime or GeneralizedTime (sections 4.1.2.5.1 and 4.1.2.5.2 of RFC 5280) converts to its epoch seconds |
| Asn1Time.ConversionIsMonotone | sources/Common/Crypto.hpp:194-343 | printed times convert in their order, across both forms |
| Asn1Time.ZonedConverts | sources/Common/Crypto.hpp:266-342 | with a zone, in either form, the guard refuses exactly the times of 1969 and 1970 whose instant lies on the other side of the epoch; all others convert to their epoch seconds |
| Asn1Time.RefusedNextToTheEpoch | sources/Common/Crypto.hpp:324-326 | such a time |
| Asn1Grammar.ReadsWhatIsTold | sources/Common/Crypto.hpp:212-284 | a text is read as a time with an offset if and only if it consists of fields in their ranges, with seconds or without, a fraction in the generalized form, and a zone of that offset, up to a zero or the end |
| Asn1Grammar.SecondsOnly | sources/Common/Crypto.hpp:194-343 | the conversion gives a number of seconds if and only if the text tells a time with that epoch value which the guard lets through |
| Asn1Grammar.LocalOnly | sources/Common/Crypto.hpp:256-264 | local time is asked for if and only if a text of the generalized form has no zone |
| Asn1Grammar.ErrorsOnly | sources/Common/Crypto.hpp:205-252 | which error each other input gets: type, length, fields |
| RuleXml.SaveListeners | sources/Core/Rule.cpp:454-465 | appends one node per listener, in order |
| RuleXml.SaveInputEndpoints | sources/Core/Rule.cpp:467-511 | the set of input endpoints with listeners, address and uuid |
| RuleXml.SaveDestinationEndpoints | sources/Core/Rule.cpp:513-539 | the set of destination endpoints |
| RuleXml.CreateEntity | sources/Core/Rule.cpp:441-452 | the attributes of a rule |
| RuleXml.SaveTunnelRuleSet | sources/Core/Rule.cpp:541-559 | one node per tunnel rule |
| RuleXml.SaveServiceRuleSet | sources/Core/Rule.cpp:561-577 | one node per service rule |
| RuleXml.Save | sources/Core/Rule.cpp:384-416 | the document of a rule set, or the exception when the schema does not accept it |
| RuleXml.ParseEntity | sources/Core/Rule.cpp:588-611 | a rule's attributes, or the missing one |
| RuleXml.ParsePart | sources/Core/Rule.cpp:669-691 | what one child adds to an endpoint |
| RuleXml.ParseEndpoint | sources/Core/Rule.cpp:662-719 | an endpoint, or the first error among its children |
| RuleXml.ParseEndpoints | sources/Core/Rule.cpp:721-741 | a set of endpoints, in order |
| RuleXml.ParseFilters | sources/Core/Rule.cpp:743-753 | the filters, in order |
| RuleXml.ParseTunnelRule | sources/Core/Rule.cpp:755-771 | a tunnel rule from its three sets |
| RuleXml.ParseServiceRule | sources/Core/Rule.cpp:797-813 | a service rule with its services |
| RuleXml.Load | sources/Core/Rule.cpp:828-866 | the rule set of a document that the schema accepts, or the first error |
| RuleXml.EndpointIsReadBack | sources/Core/Rule.cpp:467-539 | an endpoint of either side, less what is dropped |
| RuleXml.SaveThenLoad | sources/Core/Rule.cpp:384-815 | saving any rule set and loading it gives it back, in order at every level, less the silent flag, the connections limit and the acceptors that are not written |
| RuleXml.SavingIsStable | sources/Core/Rule.cpp:384-815 | save, load and save again writes the same document |
| RuleXml.ComesBackWhole | sources/Core/Rule.cpp:384-815 | the rule set itself comes back exactly when it has nothing that saving drops |
| RuleDocuments.MatchingDocumentLoads | sources/Core/RuleSet.xsd:60-70 | a document that the schema accepts is loaded if and only if every combined address of an input carries IsAcceptor |
| RuleDocuments.SilentAddressIsRefused | sources/Core/RuleSet.xsd:60-70 | a document that the schema accepts and the parser refuses |
| RuleDocuments.SavedMatches | sources/Core/Rule.cpp:384-416 | a rule set can be saved if and only if its uuids and resource identifiers are well formed and no set of endpoints or services is empty |
| RuleDocuments.SaveAndLoad | sources/Core/Rule.cpp:384-866 | the two methods together: refused exactly for a rule set that is not well formed, otherwise everything comes back but what saving drops |
| RuleMeaning.EndpointSays | sources/Core/Rule.cpp:662-719 | an endpoint that the schema accepts is loaded as its uuid, its listeners in order and its address say |
| RuleMeaning.TunnelRuleSays | sources/Core/Rule.cpp:755-771 | a tunnel rule is loaded as its attributes, its filters and its two sets say, in order |
| RuleMeaning.ServiceRuleSays | sources/Core/Rule.cpp:797-813 | a service rule is loaded as its attributes and its services say |
| RuleMeaning.DocumentSays | sources/Core/Rule.cpp:613-628 | a document is loaded as one rule for every child of its root, in order |
| Registry.Implementation.constructor | sources/Core/ServerWorker.cpp:461-472 | empty registries |
| Registry.Implementation.OpenRule | sources/Core/ServerWorker.cpp:910-1027 | the inputs are opened in order on copies, up to the first that is not accessible or throws |
| Registry.Implementation.UpdateTunnelRule | sources/Core/ServerWorker.cpp:1029-1148 | the registries and the result or exception of an update |
| Registry.Implementation.UpdateServiceRule | sources/Core/ServerWorker.cpp:1150-1223 | the same for a service rule, with its OpenRule |
| Registry.Implementation.DeleteRule | sources/Core/ServerWorker.cpp:635-721 | the rule leaves the active and the waiting rules, and one of its services stops |
| Registry.Implementation.OpenTunnelImplementation | sources/Core/ServerWorker.cpp:1603-1637 | a tunnel becomes active if the licence has room and its setup starts |
| Registry.Implementation.CloseTunnel | sources/Core/ServerWorker.cpp:803-843 | the tunnel leaves the registry, and the rule of a static one too; whether it is destroyed, switched or its rule reopened |
| Registry.Implementation.CheckTunnelRules | sources/Core/ServerWorker.cpp:1419-1441 | the waiting rules are tried in order up to the first error, a licence error too; the registries are those of that pass, and the rules not come to are lost |
| Registry.PassSplits | sources/Core/ServerWorker.cpp:1429-1439 | a pass over two lists of rules is the pass over the first, and unless that ended in an error the pass over the second from where it left off |
| Registry.RegistriesAreSafe | sources/Core/ServerWorker.cpp:635-1148 | over every run, with every throw: active rules and tunnels within the licence, waiting rules active unless their static tunnel is being reopened |
| Registry.TunnelUpdateIsSafe | sources/Core/ServerWorker.cpp:1029-1148 | one update keeps that, on every path |
| Registry.UpdateActivates | sources/Core/ServerWorker.cpp:1084-1133 | an update makes a rule active exactly when it is enabled, licensed and opened; other rules are untouched |
| Registry.ServiceUpdateLeavesAnEmptyRule | sources/Core/ServerWorker.cpp:1182-1219 | "active iff a service runs" survives an update exactly when the rule was not active, or it is enabled, the licence has room for one rule more and all its services start |
| Registry.ServiceRulesAreServed | sources/Core/ServerWorker.cpp:1182-1219 | over all runs an active service rule always has a service if and only if no rule can be active at all |
| Registry.RefusedAtTheLimit | sources/Core/ServerWorker.cpp:1182-1219 | a run in which the licence refuses the update of a service rule, which stays active without a service |
| Registry.OneServiceIsStopped | sources/Core/ServerWorker.cpp:673-683 | no service is left after a deletion exactly when there was at most one |
| Registry.ServiceOutlivesItsRule | sources/Core/ServerWorker.cpp:673-683 | a run after which a service of a deleted rule goes on |
| Registry.OneTunnelIsReplaced | sources/Core/ServerWorker.cpp:1065-1082 | on every path of an update, also one that throws, all tunnels of the rule are new exactly when it had at most one |
| Registry.DeletionTells | sources/Core/ServerWorker.cpp:635-721 | a deletion answers true if and only if a rule left the active or the waiting ones; it takes out that rule only, and stops no service of another |
| Registry.ServiceUpdateAnswers | sources/Core/ServerWorker.cpp:1150-1223 | what the update of a service rule answers, how many of its services run after it, and that those of other rules run on |
| Registry.TunnelOpenedAnswers | sources/Core/ServerWorker.cpp:1603-1637 | a tunnel is there, under the next id, exactly if its setup has not failed, the licence has room and it starts |
| Registry.TunnelClosedAlone | sources/Core/ServerWorker.cpp:803-843 | closing a tunnel takes out that tunnel only, and the rule of a static one only |
| Registry.TunnelOutlivesItsRule | sources/Core/ServerWorker.cpp:1065-1082 | a run after which a tunnel of a disabled rule stays open |
| RuleCheck.UpdateSucceeds | sources/Core/ServerWorker.cpp:1029-1148 | when an update succeeds, from what its caller knows: licence, room for the tunnels it dials, answers and setups; and when the licence is what it fails at |
| RuleCheck.OpenedRule | sources/Core/ServerWorker.cpp:910-1027 | an opened rule handles exactly its accepting inputs that were opened, and waits exactly if an input that dials was not connected, up to the first that accepts a single client |
| RuleCheck.UpdateAnswers | sources/Core/ServerWorker.cpp:1029-1148 | an update answers true if and only if the rule is disabled, or its guards hold, every input was opened under a uuid of its own and every setup started |
| RuleCheck.UpdateInstalls | sources/Core/ServerWorker.cpp:1084-1133 | the active rule with its handlers, and whether it waits |
| RuleCheck.NewTunnels | sources/Core/ServerWorker.cpp:1134-1142 | the new tunnels of an update: one for every input that was dialled, but for the first whose setup does not start |
| RuleCheck.PassEnds | sources/Core/ServerWorker.cpp:1419-1441 | a pass ends at the first rule whose guard, told from the registries before the pass, fails, with a licence error exactly if too many rules would be active |
| RuleCheck.PassTriesAll | sources/Core/ServerWorker.cpp:1419-1441 | a pass loses no rule if and only if the guards of all rules but the last hold, and has no error if and only if all hold |
| RuleCheck.PassKeeps | sources/Core/ServerWorker.cpp:1419-1441 | a pass keeps licence limits and all other rules; the rules tried are active again but the one that ended it, which the licence refuses only if its static tunnel is being reopened; the lost rules wait no more |
| RuleCheck.PassInARun | sources/Core/ServerWorker.cpp:1419-1441 | both for every pass in every run |
| RuleCheck.SlicingEndsThePass | sources/Core/ServerWorker.cpp:624-626 | the pass as meant, going on after licence errors, gets further if and only if a licence error before the last rule ends the real one |
| RuleCheck.WaitingRulesAreLost | sources/Core/ServerWorker.cpp:1419-1441 | some pass of some run loses a rule if and only if at least one rule and one tunnel are licensed |
| RuleCheck.ErrorLosesARule | sources/Core/ServerWorker.cpp:1434-1437 | a run and a pass that loses a rule by an error of the rule before it |
| RuleCheck.RefusalLosesARule | sources/Core/ServerWorker.cpp:1432-1437 | a run and a pass that loses a rule by the licence refusal of a rule whose static tunnel is being reopened, where the pass as meant would have gone on |
| UrlCodec.EncodeUrl | sources/Common/StringUtil.hpp:102-121 | the encoding, unit by unit |
| UrlCodec.DecodeUrl | sources/Common/StringUtil.hpp:131-178 | the decoding of a part of a string, or that the loop ran past its end |
| UrlCodec.EscapedIsNotPlain | sources/Common/StringUtil.hpp:109-113 | the comparisons let through exactly letters, digits, '-', '.' and '_' |
| UrlCodec.EncodingIsWellFormed | sources/Common/StringUtil.hpp:106-120 | the encoded form has only those, '+' and triples (section 2.1 of RFC 3986) |
| UrlCodec.RoundTripInPlace | sources/Common/StringUtil.hpp:131-178 | decoding an encoded text gives it back, wherever in a larger string it stands |
| UrlCodec.RoundTrip | sources/Common/StringUtil.hpp:101-198 | DecodeUrl(EncodeUrl(s)) is s for all units below 256 |
| UrlCodec.DecodesWhatIsSpelled | sources/Common/StringUtil.hpp:131-178 | every whole text, well formed or not, is decoded as what it spells, with digits of either case, and as nothing else |
| UrlCodec.EncodesShortest | sources/Common/StringUtil.hpp:102-121 | of all encodings that spell a text this is the shortest, and the only one of its length |
| UrlCodec.EncodingSpells | sources/Common/StringUtil.hpp:102-121 | and it is an encoding that spells the text |
| UrlCodec.OverrunsAtCutTriple | sources/Common/StringUtil.hpp:139-146 | the loop passes the end of its part exactly when the part ends with '%' and one digit and a digit stands behind it |
| UrlCodec.OverrunsInTheMiddle | sources/Common/StringUtil.hpp:139-146 | such a string and part |
| UrlCodec.WholeStringsStayInside | sources/Common/StringUtil.hpp:180-184 | it never does on a whole string |

## Left out

- Connection.Implementation.Open: whether the streams are those of a socket or of a file.
- Connection.Implementation.HandleReadData: close codes and latency statistics.
- ConnectionRuns.RefLedger: an exception that leaves a handler skips its RemoveRef; in the runs this is a read or a write that is never released.
- Relay.NoLostResume: what a caller of StartReading does with an exception (those of the core close the tunnel); handlers that stall before they release their block are outside the model, which takes each handler as one step; so are SetData and a StartReading or StopReading while a stop is pending (see ConnectionRuns.ReadInvStep).
- IdleTimer.ExpiresExactly: timers are exact; a timer that fires late is not modelled, nor is a connection that is closed before its timer expires.
- Allocators.Connection.CreateMessageBlock: other threads that take blocks between the attempt and the retry are not modelled.
- Asn1Time.ConvertAsn1TimeToTimeTUtc: the local-time branch (Crypto.hpp:256-264) ends at the call of mktime.
- Asn1Time.Pint: for up to 9 digits, where 32 bits suffice; the callers read 2 or 4.
- RuleXml.ParseEndpoint: one method for the two of the source, which differ in the attributes they read.
- RuleXml.Load: XML text and its encoding; a schema file that cannot be read.
- RuleXml.Save: endpoints are their resource identifiers; address objects that replace them are not modelled.
- Registry.Implementation.CloseTunnel: the code after the update of a static tunnel's rule, which uses a pointer that was reset; what the switch to the next destination does.
- Registry.Implementation.CheckTunnelRules: the hand-over of an update to the updating thread, but for the type of the exception that comes back. A pass is one step; the single updates may also be interleaved with anything in the runs.
- Registry.RegistriesAreSafe: licences are two fixed limits; uuids are numbers that are compared.
- Tunnels.Tunnel.Init: disconnecting the signals after an exception. A second Init after Switch adds to the count here as in the source, but is not part of the runs.
- Tunnels.DestructorWaitsForAll: the runs start when the constructor has opened the connections; in them only the destructor closes connections.
- UrlCodec.EncodeUrl: units from 256 on, for which the source reads past its table of digits.
- RwSpinMutex: the order in which threads get the lock; readers ignore the wait bit, so writers may starve.
- SpinMutex, Collection, exceptions, strings, logging, licence checks and hexadecimal text: easy members.
- User interface, service entry point, DLL and file security, OpenSSL wrappers: calls of the operating system and of libraries.
