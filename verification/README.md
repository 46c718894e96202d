# A verified model of the MPC signing system's message plane

The system signs transactions with two parties that exchange messages through rooms of a
broadcast-only broker.  This project models the broker, the participants' transport on top of
it, the signing sessions and the gateway they pass through, and three smaller machines beside
them: the shutdown slot of a participant server, the updater of key-share files, and the
sliding-window sieve that finds safe primes.  `dafny verify dfyconfig.toml` checks everything.

Protocols are transition systems whose steps lie between two points at which another task can
run; their theorems hold for any number of tasks and any interleaving.  Code that one task runs
from start to end (the sieve, the file updater, the signer, the room's operations) is written
as methods that change arrays, fields and maps, proved against functions on values, and what
the source promises is proved about those functions.

| file | what it models |
|---|---|
| Common, Bits, Decimal | u16 arithmetic; words bit by bit; printing and parsing of decimal numbers |
| Broker | a room: log behind a fair reader-writer lock, notifications, publishers, subscribers; what each step keeps |
| BrokerSafety | whole runs of a room: wakeups, ordered delivery, the width of the cursor |
| Justice, BrokerLiveness | a proof rule for weak fairness, and progress of a room by it |
| RoomObjects | `Room` and `Subscription` as objects, with the waiting loop |
| Resume | `Last-Event-ID` |
| Directory | the map of rooms, created by double-checked locking |
| Transport, FifoPair | addressed streams over a room; the signing room as two FIFO channels |
| TxIds, SignerClient, Isolation | transaction ids, the signing client, sessions sharing a broker |
| Gateway | sessions through one mutex |
| ShutdownSlot | the one-shot slot |
| Dealer, KeyShareHistory | one run of the key-share updater; histories of runs |
| ModArithmetic, Sieve, SafePrimes, SafePrimeTheorems | the sieve, the search, and what the search finds |

## What is taken from libraries

- `notify_waiters` of tokio's `Notify` completes every `Notified` future that exists when it is
  called, polled or not; a future made later is not completed by it.
- tokio's `RwLock` admits its waiters in arrival order, readers together.
- Dropping a oneshot sender resolves its receiver.

Integer widths are explicit.  u16 sums wrap, as they do in a release build of this workspace; in
a debug build the same sums panic (the atomic counters and `tx_counter` wrap in both).

## Where a promise is not kept as stated

- Cursors: a subscription delivers every entry once only while its room holds at most 65,535
  entries (`BrokerSafety.CursorBoundIsExact`), and a signing room keeps its two channels in
  order only so long (`FifoPair.FifoBoundIsExact`).  Index 65,535 is delivered and then the
  cursor is 0 again.
- Signing through the gateway is free of deadlock exactly when connections time out or no
  session calls one client alone (`Gateway.DeadlockFreeIff`).  A `threshold` of 1 does that, and
  so does a signer whose local participant was never started.  The participant's client does
  set a timeout of 60 seconds, participant/src/client.rs:69, next to a comment that says it is
  disabled: so a lone call blocks all others until it times out
  (`Gateway.LoneRemoteBlocksAll`), and for ever if the comment is made true.
- Two sessions share a room exactly when the instance ids are equal and the calls a multiple of
  65,536 apart (`TxIds.SameRoomIff`), and then read each other's messages
  (`Isolation.IsolationIsExact`).  Two signers that draw the same instance id do so from their
  first call on (`Isolation.TwinSigners`), against the comment at
  mpc-client/src/signer.rs:145.  The one at line 150 shows ids that start at 1; the code starts
  at 0.
- A start call stores its sender before it binds the address, so a second start that fails
  ends the first server too (`ShutdownSlot.FailedRestartEndsBoth`).
- The safe-prime search checks the length between windows only, against the comment at
  vendor/fast-paillier/src/utils.rs:168.  A run answers with a number that is too long exactly
  when nothing below the limit is good and something beyond it, in the last window, is
  (`SafePrimeTheorems.TooLongIff`); asked for 4 bits it can return 23
  (`SafePrimeTheorems.TooLongExample`).  It is sure not to exactly when the table strikes
  everything in the last window beyond the limit (`SafePrimeTheorems.AnswerFitsIff`).
- For a table of primes and true primality, the search has an answer at all exactly when some x
  in reach has x and 2x + 1 prime and neither in the table
  (`SafePrimeTheorems.SafePrimeExistsIff`); up to 22 bits there is none.
- The comment at vendor/fast-paillier/src/utils.rs:73 gives the window as 400,000 and the one at
  line 87 the base as one bit shorter than it is; the constants and the code are modelled.
- A key-share run is all or nothing only when its keys are good; the exact exception is
  `KeyShareHistory.HalfUpdatedIff`.

## Model

| member | source | states |
|---|---|---|
| Broker.Step | sse/src/lib.rs:165-241 | every step of any publisher or subscriber, cancelled calls and dropped subscriptions included, keeps the whole invariant of a room: lock, wakeups, delivered items, authorship of the log |
| Broker.HoldersStep | sse/src/lib.rs:165-228 | the lock has one writer or only readers, and they are exactly the tasks between acquiring and dropping a guard |
| Broker.QueueStep | sse/src/lib.rs:165-228 | the tasks waiting for the lock are exactly those in its queue, each once, also after a task gives up while it waits |
| Broker.WakeStep | sse/src/lib.rs:165-228 | holding the write guard over push and notify, and registering under the read guard, keeps the no-lost-wakeup invariant |
| Broker.DeliveryStep | sse/src/lib.rs:210-218 | the items of a subscription stay the log entries counted from its start, in u16 arithmetic |
| Broker.AuthorStep | sse/src/lib.rs:165-169 | the log stays an interleaving of what its publishers have sent, with at most one message of each on its way |
| Broker.Remove | sse/src/lib.rs:231-241 | cancelling a wait takes that task out of the lock's queue and nobody else |
| BrokerSafety.ReachableInv | sse/src/lib.rs:165-241 | the invariant holds in every state that any run reaches |
| BrokerSafety.NoLostWakeup | sse/src/lib.rs:210-228 | in every reachable state a parked subscriber with no wake pending has a cursor at or beyond the end of the log, except between a push and its notify |
| BrokerSafety.WokenIffNotified | sse/src/lib.rs:224-226 | a subscriber is woken exactly by the notifications given since it registered, whether or not it was parked yet |
| BrokerSafety.DropFrees | sse/src/lib.rs:231-241 | a subscription can be dropped wherever it stands, which frees its guard or its place in the queue and changes nothing else |
| BrokerSafety.AbandonFrees | sse/src/lib.rs:165-169 | a call of publish can be cancelled exactly while it waits for the lock, and its message then never gets into the log |
| BrokerSafety.OrderedDelivery | sse/src/lib.rs:210-218 | the k-th item yielded is the entry k places behind the start, with its number, over any interleaving |
| BrokerSafety.HistoryIsStable | sse/src/lib.rs:165-169 | no later step changes an entry that was logged or an item that was delivered |
| BrokerSafety.LateJoinerAgrees | sse/src/lib.rs:181-195 | of two subscriptions with one start, whenever they joined, one's items are a prefix of the other's |
| BrokerSafety.CursorBound | sse/src/lib.rs:214-216 | with fewer than 65,536 entries no cursor increment overflows, items are numbered consecutively, none repeats, and a start beyond the end yields nothing |
| BrokerSafety.CursorBoundIsExact | sse/src/lib.rs:214-216 | rooms with up to n messages never repeat an item if and only if n is at most 65,535 |
| BrokerSafety.PublishAlone | sse/src/lib.rs:165-179 | the five steps of an undisturbed publish append one entry, notify once and leave the lock free |
| BrokerSafety.JoinAndRead | sse/src/lib.rs:181-218 | a newcomer reads the entry behind the last one its client has seen, or entry 0, however long ago that was published |
| BrokerSafety.StartsBehind | sse/src/lib.rs:181-195 | in any run a subscription made for a client that has seen entry i starts, and stays, at i + 1 as u16, and one without a header at 0 |
| BrokerSafety.LogInterleavesPublishers | sse/src/lib.rs:165-169 | a publisher's entries are a prefix of what it sent, short of one message at most, and all of it once its call has returned |
| Justice.Concludes | sse/src/lib.rs:212-227 | under weak fairness a claim whose rank never grows, and whose helpers stay able to run, is met in finitely many steps |
| BrokerLiveness.HelperCanAct | sse/src/lib.rs:212-227 | while a live subscription's cursor is below the log's length, or a message waits to be appended, some task that brings it nearer can take a step |
| BrokerLiveness.QueueIsServed | sse/src/lib.rs:167-213 | whatever step is taken, a task in the lock's queue leaves it, or the work before its turn shrinks, or nothing changes and its helpers still wait to run |
| BrokerLiveness.StepServes | sse/src/lib.rs:212-227 | no step of any task raises the rank of a pending delivery or append that does not give up |
| BrokerLiveness.EventuallyServed | sse/src/lib.rs:212-227 | under a fair schedule a subscription that stays and has something to read yields an item, and a message handed to publish is appended unless the call is cancelled |
| BrokerLiveness.EveryEntryIsRead | sse/src/lib.rs:210-228 | under a fair schedule a subscription yields entry n as item n - start, for every n from its start on within the width of the cursor |
| BrokerLiveness.CanActIff | sse/src/lib.rs:165-228 | a task has a next step exactly when some step of its own is enabled |
| BrokerLiveness.FairIsWeak | sse/src/lib.rs:165-228 | the fairness asked for is weak fairness: no task that could always step from some point on never does |
| RoomObjects.Room.Publish | sse/src/lib.rs:165-179 | the message is appended and waiters are notified once; nothing else changes |
| RoomObjects.Room.Subscribe | sse/src/lib.rs:181-195 | the subscription starts behind the last id seen or at 0, and the counter counts it |
| RoomObjects.Room.IssueUniqueIdx | sse/src/lib.rs:197-200 | the k-th call on a room gives k, as u16 |
| RoomObjects.IssuedTwiceIff | sse/src/lib.rs:197-200 | two calls on a room give the same index exactly when a multiple of 65,536 calls lies between them |
| RoomObjects.Subscription.Next | sse/src/lib.rs:210-228 | whatever others publish at its two awaits, the loop returns the entry at the cursor after at most one more await once it exists, and waits on exactly if it never does |
| RoomObjects.Subscription.Drop | sse/src/lib.rs:231-241 | the counter left is the number of subscriptions not dropped, as u16 |
| Decimal.ParsePrinted | sse/src/lib.rs:317-336 | parsing the printed id of an event as u16 gives the id back |
| Decimal.PrintedIsPositional | sse/src/lib.rs:331-336 | a number is printed by its decimal digits, most significant first, without leading zeros |
| Decimal.ParsesIff | sse/src/lib.rs:317-323 | the texts that parse as v are exactly v printed behind any number of zeros and perhaps a plus sign |
| Decimal.PrintIntInjective | participant/src/signing.rs:104-108 | different signed numbers print differently |
| Resume.HeaderRoundTrip | sse/src/lib.rs:317-336 | an id printed for the client and parsed from its header is the same id |
| Resume.ResumeFindsThePlace | sse/src/lib.rs:317-336 | resubscribing with the last id received lands on the entry behind it, the old cursor if nothing was lost in transit |
| Resume.ResumeIsSeamless | sse/src/lib.rs:181-195 | in any run whose reconnects send the last id received, over any number of them, cut anywhere and some perhaps empty, the j-th item of each connection is the entry as many places behind the first as the client has received items before |
| Resume.HeaderLeadsTo | sse/src/lib.rs:317-323 | a header leads to entry e > 0 exactly when it is the number e - 1, perhaps with zeros and a plus sign in front |
| Resume.RestartsAtZero | sse/src/lib.rs:317-323 | a subscription starts at 0 exactly when the header is absent, is no such number, or is 65,535 |
| Resume.OtherCharactersRestart | sse/src/lib.rs:317-323 | a header with any character that is no digit, other than a plus sign in front, starts at 0 |
| Directory.StepIsAtomic | sse/src/lib.rs:123-144 | each step of double-checked locking is invisible or is one whole atomic get-or-create, within the call it belongs to |
| Directory.RunRefines | sse/src/lib.rs:123-144 | along every run the bindings and results change by atomic get-or-creates alone |
| Directory.OneRoomPerId | sse/src/lib.rs:123-144 | under any interleaving two finished calls got the same room if and only if they asked for the same id |
| Directory.BindingsAreForever | sse/src/lib.rs:133-143 | a binding once made never changes, nor does a result once returned |
| Directory.FiveStepsAtMost | sse/src/lib.rs:123-144 | however many others arrive, a call takes at most five steps of its own |
| Directory.RunsAreBounded | sse/src/lib.rs:123-144 | once no new call arrives no run is longer than the steps the calls have left |
| Directory.AtRestIffReturned | sse/src/lib.rs:123-144 | no call can step if and only if all have returned, so the two locks, served in arrival order, never deadlock |
| Directory.CallsReturn | sse/src/lib.rs:123-144 | every state has a run of at most five steps per call after which all calls have returned |
| Directory.NewCallReturns | sse/src/lib.rs:123-144 | a call for any id can be made at any time and returns the room bound to it, the old one if there was one |
| Directory.FirstComeFirstServed | sse/src/lib.rs:123-144 | while a call waits for the lock, none that came later is admitted before it |
| Transport.StampedIsRouted | participant/src/client.rs:246-293 | a message from a sink passes another party's filter exactly when it was meant for all or for that party, never its sender's, and arrives with id 0, its sender and body, typed by how it was addressed |
| Transport.SinkSends | participant/src/client.rs:274-293 | the messages a sink can send are exactly those that carry its index |
| Transport.SenderStream | participant/src/client.rs:246-268 | filtering the shared log by address and then by sender is reading that sender's own stream |
| Transport.SeenIsLogPrefix | participant/src/client.rs:235-243 | a transport subscription has yielded an initial stretch of the log |
| Transport.RoutedInOrder | participant/src/client.rs:246-293 | for any number of parties, what one has received from another is the accepted part of an initial stretch of what was sent, in order, and all of it once both are done |
| Transport.InboxPicksAccepted | participant/src/client.rs:246-268 | the filter keeps exactly the accepted entries, each once and in log order |
| Transport.RoutingConserves | participant/src/client.rs:246-268 | when parties 0 to n - 1 have read the log of a room, every entry has been received by as many of them as it is meant for: n - 1, one, or none if self-addressed, and nothing else has |
| FifoPair.InboxIsPeerStream | participant/src/client.rs:246-268 | with parties 0 and 1 the filter passes all of the other's entries and none of one's own |
| FifoPair.PairActionIff | participant/src/signing.rs:126-140 | the runs considered are all those in which sinks are given messages for all or for the other party and subscriptions carry no header |
| FifoPair.DeliveredPrefix | participant/src/client.rs:235-293 | what a party has received is an initial stretch of exactly what the other sent, whoever joined first |
| FifoPair.RoomRefinesFifo | participant/src/signing.rs:126-140 | in each direction of a signing room, handing over a message accepts that message, cancelling withdraws it undelivered, reading an entry of the sender delivers the oldest undelivered one, and no other step changes the channel |
| FifoPair.FifoBoundIsExact | participant/src/signing.rs:126-140 | signing rooms with up to n messages deliver only prefixes of what was sent if and only if n is at most 65,535 |
| FifoPair.StartsEmpty | participant/src/signing.rs:126-140 | a new room is two empty channels |
| FifoPair.EverySentMessageArrives | participant/src/client.rs:274-293 | under a fair schedule, and with no call cancelled, the n-th message a party hands to its sink becomes the n-th message its peer receives |
| Bits.ShlBits | mpc-client/src/signer.rs:157-158 | a 32-bit shift moves every bit up and loses those beyond the word |
| Bits.OrBits | mpc-client/src/signer.rs:157-158 | a bit of the or is set exactly when it is set on either side |
| TxIds.ShiftOrPacks | mpc-client/src/signer.rs:157-158 | shifting the instance id by 16 on 32 bits and or-ing the counter bit by bit gives the id used in all other statements |
| TxIds.PackThenUnpack | mpc-client/src/signer.rs:138-158 | an id determines its instance id and counter, and is negative exactly when the instance id has its top bit set |
| TxIds.UnpackThenPack | mpc-client/src/signer.rs:138-158 | every i32 is the id of exactly the pair read from it |
| TxIds.RoomNameSpellsId | participant/src/signing.rs:104-108 | the room's name is "signing_" and the id in decimal, with a minus sign exactly for instance ids with the top bit set |
| TxIds.SameRoomIff | participant/src/signing.rs:104-108 | two sessions meet in one room if and only if their instance ids agree and their call numbers are congruent modulo 65,536 |
| SignerClient.Signer.NextTxId | mpc-client/src/signer.rs:152-166 | the id holds the signer's instance id and, as its counter, the number of ids given out before, from 0, modulo 65,536 |
| SignerClient.Signer.StartLocalParticipant | mpc-client/src/signer.rs:169-242 | it starts exactly when there are shares, all parse, and the server can be made and connected to; only then does the local participant join the list behind the gateway, and otherwise the first thing wrong is reported |
| SignerClient.Signer.Sign | mpc-client/src/signer.rs:252-319 | an account that no share is for costs no id; otherwise the first clients of the list, `threshold` of them or all, each get one request with one fresh id, and the first signature in call order is returned if there is any |
| Isolation.IsolationIsExact | participant/src/client.rs:93-103 | among any sessions of any signers on one broker, a session reads only its own messages in every run if and only if no other session has an equal instance id and a congruent call number |
| Isolation.TwinSigners | mpc-client/src/signer.rs:138-158 | two signers with one instance id are not isolated from their first call on |
| Isolation.RoomRunsAlone | sse/src/lib.rs:133-143 | whatever happens in other rooms, a room's state is the one its own steps lead to, so what holds of a single room holds of each |
| Isolation.SessionRunsAlone | participant/src/client.rs:93-103 | a session that no other collides with runs as if it had the broker to itself |
| Isolation.SeenIsOwn | sse/src/lib.rs:133-143 | whatever is read in a session's room was published by a session whose id names that room |
| Isolation.CollisionIsSeen | sse/src/lib.rs:133-143 | rooms are never removed, so a session that gets a used room reads the old messages |
| Gateway.Step | sign-gateway/src/grpc.rs:54-71 | every step keeps the mutex with the one session whose upstream call runs, and no side ahead of its peer's messages |
| Gateway.HolderCanStep | sign-gateway/src/grpc.rs:63-66 | the session of the mutex's holder can always step, because its local peer is not behind the mutex; it needs its timeout only if that peer has timed out or was not called |
| Gateway.StepsRunOut | sign-gateway/src/grpc.rs:76-93 | every step uses up some of the remaining rounds |
| Gateway.RunsAreBounded | sign-gateway/src/grpc.rs:76-93 | no run is longer than the measure of its start |
| Gateway.RunCounts | sign-gateway/src/grpc.rs:54-71 | what the sides count as sent and taken is the number of send and receive steps of the run |
| Gateway.MessagesMatch | participant/src/signing.rs:126-147 | no side takes a message before its peer has sent it, and one that returns with a signature has sent and taken one message a round |
| Gateway.NeverStuck | mpc-client/src/signer.rs:281-288 | with both clients called, or with timeouts, a state in which nothing can happen is one in which every session has all its answers |
| Gateway.DeadlockFreeIff | mpc-client/src/signer.rs:281-288 | for any number of sessions, every run to its end answers all of them if and only if connections time out or none calls one client alone |
| Gateway.LoneRemoteNeverReturns | sign-gateway/src/grpc.rs:85-88 | a session that called the gateway alone never gets a signature, and no answer at all unless its connection times out |
| Gateway.LoneRemoteBlocksAll | sign-gateway/src/grpc.rs:85-88 | until it times out such a session keeps the mutex, and every session waiting for it waits on |
| ShutdownSlot.Step | participant/src/lib.rs:131-178 | any start, shutdown or end keeps: a receiver is unresolved exactly while its sender is in the slot or in its own start call |
| ShutdownSlot.OneUnsignalled | participant/src/lib.rs:137-152 | over any interleaving a stored server is unsignalled if and only if the slot holds its sender, so at most one is |
| ShutdownSlot.StoreSignalsOthers | participant/src/lib.rs:139-143 | a second start signals every server stored before it |
| ShutdownSlot.ShutdownSignals | participant/src/lib.rs:165-178 | a shutdown signals exactly the servers whose sender has been stored |
| ShutdownSlot.ServesUntilReplaced | participant/src/lib.rs:137-178 | a server that does not fail serves on, unsignalled, exactly as long as nobody stores another sender or shuts down |
| ShutdownSlot.FailedRestartEndsBoth | participant/src/lib.rs:137-154 | a second start that cannot bind leaves both servers ended and a dead sender in the slot |
| ShutdownSlot.ParticipantServer.StartStore | participant/src/lib.rs:139-143 | storing a sender signals whoever was in the slot and leaves all others alone |
| ShutdownSlot.ParticipantServer.StopServing | participant/src/lib.rs:165-178 | the slot is emptied and its server, if any, signalled; it succeeds either way |
| Dealer.NamesAreDistinct | key-gen/src/dealer.rs:129-130 | plain and encrypted files of all parties have different names |
| Dealer.NameSpellsNumber | key-gen/src/dealer.rs:129-130 | a file's name spells out its party's number, counted from 1 |
| Dealer.Written | key-gen/src/dealer.rs:128-195 | a run stops at the first party whose file is encrypted or whose key is missing or bad |
| Dealer.FilesAfter | key-gen/src/dealer.rs:148-194 | the files written hold the old accounts and the new share, in the form asked for; all others are as they were |
| Dealer.KeyShareDealer.New | key-gen/src/dealer.rs:45-70 | a dealer exists exactly for 2 <= threshold <= parties |
| Dealer.KeyShareDealer.GenerateShares | key-gen/src/dealer.rs:73-91 | a key out of range, a zero key or a failing dealer changes nothing; otherwise the dealer holds one share for each party |
| Dealer.KeyShareDealer.SaveToFiles | key-gen/src/dealer.rs:122-198 | the files before the first party with an encrypted file, a missing or a bad key are written, and the result names that party and exactly which of the three stopped the run there; without shares nothing changes |
| KeyShareHistory.EncryptedIsPrefix | key-gen/src/dealer.rs:128-195 | after any sequence of runs from an empty directory the encrypted indices form a prefix |
| KeyShareHistory.AllOrNothing | key-gen/src/dealer.rs:128-195 | a run with good keys writes all its files, or none, and none exactly when the first file is encrypted |
| KeyShareHistory.HalfUpdatedIff | key-gen/src/dealer.rs:182-187 | a run stops halfway if and only if nothing is encrypted yet, its first key is good and a later one is missing or bad |
| KeyShareHistory.EncryptionIsFinal | key-gen/src/dealer.rs:148-152 | after an encrypted run no later run changes anything |
| KeyShareHistory.OthersKept | key-gen/src/dealer.rs:148-179 | a run keeps every other account's entry in every file |
| KeyShareHistory.SucceedsIff | key-gen/src/dealer.rs:128-195 | a run with good keys and shares writes all its files exactly when the first file is not encrypted yet |
| KeyShareHistory.SharesStayPaired | key-gen/src/dealer.rs:174-195 | after any sequence of runs with good keys, every party of an account's last successful run holds that run's share |
| Sieve.InversesWork | vendor/fast-paillier/src/utils.rs:106-114 | for an odd prime (p + 1) / 2 is the inverse of 2 and its square that of 4 |
| Sieve.OffsetsAreExact | docs/safe_prime_optimization.md:98-122 | p divides x at exactly the positions congruent to the first offset, and 2x + 1 at exactly those congruent to the second |
| Sieve.CarriedIsRecomputed | docs/safe_prime_optimization.md:138-163 | an offset carried past the window is the one recomputed from the slid base, also when the prime exceeds the window |
| Sieve.StruckIsAnyPrime | vendor/fast-paillier/src/utils.rs:126-145 | skipping 2 loses nothing: odd candidates are struck exactly when some table prime divides x or 2x + 1 |
| Sieve.MarkMultiples | vendor/fast-paillier/src/utils.rs:131-136 | marks exactly the positions congruent to the offset and returns the offset of the next window, below p |
| Sieve.InitOffsets | vendor/fast-paillier/src/utils.rs:94-119 | both offset arrays hold the first positions for the base |
| Sieve.StrikePrime | vendor/fast-paillier/src/utils.rs:130-144 | one prime's two passes strike exactly the candidates it rules out and slide both offsets |
| Sieve.StrikeEntry | vendor/fast-paillier/src/utils.rs:126-145 | one entry of the table extends the marks by exactly its candidates and moves its two offsets, and only those, to the next window |
| Sieve.SieveWindow | vendor/fast-paillier/src/utils.rs:123-145 | position k ends marked if and only if some table prime divides base + 2k or 2(base + 2k) + 1, and the offsets are those of the next base |
| SafePrimes.BaseInRange | vendor/fast-paillier/src/utils.rs:87-92 | setting two bits of the draw makes it odd and exactly bits - 1 bits long |
| SafePrimes.BaseBits | vendor/fast-paillier/src/utils.rs:87-92 | bit 0 and bit bits - 2 of the base are set, and every other bit is the draw's |
| SafePrimes.FirstFromIsLeast | docs/safe_prime_optimization.md:138-163 | the windows tile the odd numbers from the base without gap or overlap: the least good one is found, or there is none |
| SafePrimes.ScanWindow | vendor/fast-paillier/src/utils.rs:147-162 | the scan of a sieved window returns its first unstruck candidate that passes both tests |
| SafePrimes.FirstOfIsFirst | vendor/fast-paillier/src/utils.rs:85-171 | the search over all draws answers with the least good candidate of the first draw that has one, and not at all exactly when none has |
| SafePrimes.SieveSafePrime | vendor/fast-paillier/src/utils.rs:64-173 | the loop with carried offsets and resets returns 2x + 1 for the least x that no prime strikes and both tests pass in the run of the first draw that has one, and gives up exactly when no draw has one |
| SafePrimeTheorems.DiscardedIff | docs/safe_prime_optimization.md:87-122 | of the candidates with x and 2x + 1 prime the sieve discards exactly those that are, or whose 2x + 1 is, in the table |
| SafePrimeTheorems.SieveIsTransparent | docs/safe_prime_optimization.md:44-60 | once bases exceed the table, the sieved search answers as the plain loop does, for every test that rejects proper multiples of table primes |
| SafePrimeTheorems.PrimalityRejectsMultiples | docs/safe_prime_optimization.md:87-96 | true primality is such a test |
| SafePrimeTheorems.TooLongIff | vendor/fast-paillier/src/utils.rs:164-171 | a run's answer is too long if and only if no candidate below the limit is good and one beyond it is |
| SafePrimeTheorems.AnswerFitsIff | vendor/fast-paillier/src/utils.rs:164-171 | for every pair of test outcomes the answer has the requested length if and only if the sieve strikes every candidate beyond the limit |
| SafePrimeTheorems.LengthIsExactIff | vendor/fast-paillier/src/utils.rs:164-171 | without a table that is so if and only if the last window ends right at the limit |
| SafePrimeTheorems.TooLongExample | vendor/fast-paillier/src/utils.rs:85-173 | asked for 4 bits and drawing 7, the search returns 23, which has 5 |
| SafePrimeTheorems.ReachIff | vendor/fast-paillier/src/utils.rs:85-171 | the candidates of all possible draws are exactly the odd numbers from the least base to the end of the greatest base's last window |
| SafePrimeTheorems.CanAnswerIff | vendor/fast-paillier/src/utils.rs:85-171 | some draws lead to an answer if and only if a number in reach passes the sieve and both tests |
| SafePrimeTheorems.SafePrimeExistsIff | vendor/fast-paillier/src/utils.rs:85-171 | with a table of primes and true primality that is so if and only if some x in reach has x and 2x + 1 prime and neither in the table |
| SafePrimeTheorems.NoAnswerWithinTable | vendor/fast-paillier/src/utils.rs:126-171 | when all candidates of the size lie within the table no draw leads to a result, whatever the tests say |
| SafePrimeTheorems.NoAnswerUpTo22Bits | vendor/fast-paillier/src/utils.rs:53-76 | with the source's window and 300,000 primes that is so for every size up to 22 bits |

## Left out

- The protocol inside a session: CGGMP21, Paillier, curves, signatures, key derivation and the
  recovery id; the gateway's model runs it as rounds of one message each way.
- Transport errors: HTTP, gRPC, TLS, event-stream and JSON framing are taken as faithful, and
  connections as lasting; timeouts appear in Gateway alone.
- Subscriber counter and `issue_unique_idx` in the transition system; they touch nothing else
  and are modelled in RoomObjects alone.
- RoomObjects.Subscription.Next: what others publish at its awaits is a parameter; other
  subscribers and the lock's queue are those of Broker.
- RoomGuard and the taking of its channels: each half is taken once.
- SignerClient.Signer.Sign: the contents of the request other than id and account; the answers
  are a parameter, with no claim that they arrive.
- How the instance id is drawn from clock and randomness, and how likely two are to agree.
- The table of small primes itself; the theorems say what they need of it.
- SafePrimes.SieveSafePrime: random draws are a sequence and the search gives up when it is
  used up, where the source draws for ever; the primality test is any function of the number;
  the 32- and 64-bit intermediate values of the offsets are unbounded integers here, which is
  the same for primes below 2^31.
- Dealer.KeyShareDealer.SaveToFiles: failing reads and writes, files that do not parse, a
  failing write leaving an empty file, and more than one output prefix; a missing key is a
  result here and a panic in the source.
- Server life cycle beyond the shutdown slot: runtimes, signals, `Signer`'s `Drop`.
- Configuration, logging, the demo client, bindings, and the scripts around them.
