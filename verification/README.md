# A verified model of the robot factory cluster

The repository is a primary/backup replicated state machine. Customers order robots through a
load balancer; the node it routes orders to is the primary. The primary writes each order to a
batched, checksummed log file, appends it to an in-memory log, sends it to the backups whose
sockets are open, applies it to a map from customer to newest order number, and only then
releases the engineer that ships the robot. Backups append, catch up through a recovery
handshake, and apply entries one request late. A node that restarts rebuilds itself from its
log file and a peer's commit index.

This project models that system in Dafny and proves what it promises, over every run, together
with the exact conditions under which the code does not keep a promise.

## How it is built

| file | what it holds |
|---|---|
| RobotFactory.dfy | the shared records; `Replay`, the left fold every node's customer record is measured against |
| WalCodec.dfy, WalState.dfy, CommitLog.dfy | the log file: 24-byte records, operations in file, stdio buffer and batch, and the class `CommitLog` over bytes that refines them |
| Replica.dfy | one node: the handlers of Server.cpp as functions on node states, and what each does to a node that is in order and to one that is not |
| HandlerLaws.dfy | what the handlers do to any node and any request, in agreement with the primary or not |
| ServerStub.dfy, Server.dfy, AdminQueue.dfy | the two ends of the catch-up stream, the class `ServerSocket`, and the queue between engineers and the admin thread |
| PrimaryReads.dfy | what a customer of one primary can rely on |
| Turns.dfy | one turn of the admin thread, sockets and all, as a run of the protocol |
| Cluster.dfy, ClusterProofs.dfy, ClusterTheorems.dfy | the replication protocol as a labelled transition system, its invariant, log agreement and staleness |
| Batches.dfy | what the log files of a running cluster hold |
| Failover.dfy, CustomerReads.dfy | crashes of the primary and promotions, what becomes of shipped orders, and what customers read across failovers |
| CarefulRuns.dfy, ForkAbsorption.dfy | runs that never lose a node, crash and rejoin, forked entries |
| Hypotheses.dfy, Incidents.dfy | where the code falls short: exactly when, and runs on which it does |
| LoadBalancer.dfy | round robin, master election, heartbeat |

The protocol has any number of nodes. Its steps are: the first half of an admin step, one
delivery (acknowledged or not, and with a recovery stream that may be cut anywhere), one failed
send, the end of an admin step, a client leaving, a crash of any node at any point, a promotion,
a restart with any answer from a peer, and a return of the last primary as primary. A run is any
sequence of steps whose guards hold. The guards are program conditions (a lock, a loop bound, a
socket), and a promotion needs the old primary to be down and the new one to be up; the promoted
node may lack shipped orders, in which case the promotion forgets them
(`Failover.PromotionForgets`). A node that a delivery damages, that keeps an entry the primary's
log does not have, or that dies with such an entry in its file is put into the set `lost` at that
step, and from then on may be in any state at all, except that it does not become primary.
Everything is proved of all nodes outside that set. When a delivery damages a backup is stated
exactly (`Replica.DeliveryOutcome`), and `CarefulRuns.NobodyLost` gives conditions on each step
under which the set stays empty: those on reconnection, promotion and restart are numbers that can
be read off the nodes before the step, the one on a delivery is that the network does not cut a
recovery just before an order.

The methods of `CommitLog`, `ServerSocket` and the load balancer's `RobotFactory` update their
fields in place as the source does; each is proved equal to the function the theorems are about.
What the network does during a call (an acknowledgement, a stream that ends early, a peer's
answer, a connection attempt) is a parameter of the method. The checksum is an arbitrary total
function of the twelve data bytes, and the never assigned `index` field of a record holds an
arbitrary value.

## Where the code falls short of its intent

Each of these is kept as the code has it. The lemmas named say exactly when it bites, and give a
run from the start on which it does (for `Incidents.PrimaryAgain` and the end of
`Incidents.ForkStays`, the history of one node).

- Catch-up starts at the backup's commit index on the primary's side and at its last index on
  the backup's side. The connection is drained if and only if the two are equal and the primary
  has nothing behind its last index (`Replica.HandshakeDrains`); a lagging backup gets its newest
  entry twice (`Replica.LaggingHandshake`), and its record ends one entry short of its commit index
  (`HandlerLaws.CatchUpRecord`). A backup that was served once and misses one order
  is enough (`Incidents.LaggingRun`).
- A commit-only request that finds a backup exactly one entry behind kills it if it keeps nothing
  beyond its last index; otherwise the backup applies the first entry it finds there, whatever it
  is (`Replica.OneBehind`; `Incidents.LateComerRun`).
- A recovery that is cut kills the backup exactly if there is no entry at the primary's commit
  index, counting what was received and what the backup kept beyond its last index; otherwise it
  applies the entry found there, and its last index may lie past the end of its log
  (`Replica.CutRecovery`). In both cases the backup is right afterwards exactly under
  `Replica.TailServes` (`Replica.TailExact`). `Incidents.LateComerRun` has it die and live on,
  `Incidents.ForgetfulAppliesWrong` has it apply the wrong entry.
- A restarting node dies if the fetched commit index equals a non-zero number of recovered
  entries (`Replica.RestartExact`): a backup that crashes one order after its file got a batch
  cannot come up while the primary answers (`Incidents.RestartDies`). If a restarting node keeps
  entries beyond its last index, the next catch-up writes them to the file again
  (`Hypotheses.TailIsLoggedTwice`), and the file stops being a prefix of the primary's log as soon
  as one of them gets there and differs from the entry due in its place (`Hypotheses.FileAfterTail`; `Incidents.ForgetfulLogsTwice`).
- A node that acts as primary again without a restart skips its uncommitted entry
  (`Hypotheses.PendingEntryIsSkipped`; `Incidents.PrimaryAgain`).
- A primary that dies with its order sent to some backups only leaves those that have it with
  an entry the next primary may lack (`Hypotheses.ForkHappens`). The entry is absorbed by a
  survivor that the new primary's next request reaches (`ForkAbsorption.ForkAbsorbed`), but
  committed by a node that restarts from a file holding it, unless a peer answers with a smaller
  non-zero index (`Hypotheses.ForkedRestart`), and never repaired by catch-up
  (`Hypotheses.RecoveryRepairsNothing`; `Incidents.ForkStays`).
- A backup that has reconnected but was not served yet has an open socket and may lack shipped
  orders (`Hypotheses.OpenSocketIsNotEnough`). Whether it does is decided by its last index alone
  (`Failover.SafeSuccessor`); once served it is safe for as long as the socket stays open
  (`Failover.FailoverSafety`).
- Customer -1 cannot place orders (`Hypotheses.MinusOneIsNoCustomer`).
- The load balancer's worker selection runs into its own NULL stub
  (`LoadBalancer.WorkerChoiceExact`), at the first session after the first node fails to answer
  (`LoadBalancer.NullStubHappens`).
- RobotFactory.h:39-42 says a reply carries customer id -1 for an unknown customer; the code
  returns the id that was asked for, with order number -1 (Server.cpp:192-197). The model follows
  the code.

## Model

| member | source | states |
|---|---|---|
| RobotFactory.LookupIsNewestWrite | Server.cpp:189-206 | a read of a record that is the replay of a log returns the newest write to that customer, or -1 |
| RobotFactory.ReadCountsOrders | ClientThread.cpp:29-42 | if a customer's entries are numbered 1, 2, 3, ..., a read returns how many there are |
| RobotFactory.ReadsNeverDecrease | ClientThread.cpp:29-42 | for such a customer, reads of a growing committed prefix never go back |
| RobotFactory.OneEntryOneCustomer | Server.cpp:354-358 | records one entry apart differ for that entry's customer at most |
| RobotFactory.UnseenExact | Server.cpp:354-358 | skipping entries leaves the record right after the next one if and only if none of them shows |
| WalCodec.EntryRoundTrip | RobotFactory.h:100-105 | a 24-byte record decodes to what was encoded, for every value of every field |
| WalCodec.RecordLayout | CommitLog.cpp:74-95 | every byte of a record that is written: index, length, opcode, customer, order number, and the checksum of its own bytes 8 to 19 |
| WalCodec.RecoverEncoded | CommitLog.cpp:112-133 | records with matching checksums are read back in order and the file is read to its end, whatever the index and length fields hold |
| WalCodec.TornTail | CommitLog.cpp:112-133 | cutting a file of whole good records to k bytes recovers exactly the first k / recordsize operations |
| WalCodec.TornAppends | CommitLog.cpp:74-83 | for any appended operations and any values of the unset index field, a file cut to k bytes recovers exactly the first k / 24 operations |
| WalCodec.PlainTornAppends | CommitLog.cpp:60-72 | the same for the 12-byte format without checksums |
| WalCodec.BothFormatsAgree | CommitLog.cpp:60-133 | on an undamaged history both recovery loops yield the same log |
| WalCodec.LongestValidPrefix | CommitLog.cpp:112-133 | on any bytes at all, recovery yields the data of the longest prefix of whole good records: all it returns is good, and it stopped at a bad record or at the end |
| WalCodec.FirstRecord | CommitLog.cpp:117-128 | something is recovered from a file if and only if its bytes 20 to 23 are the checksum of its bytes 8 to 19 |
| WalCodec.RecoveredBytes | CommitLog.cpp:117-128 | the longest valid prefix in bytes: the data of the records in front of the first one whose stored checksum is not that of its data bytes |
| WalCodec.PlainRecoveredBytes | CommitLog.cpp:60-72 | without checksums every twelve bytes are an operation and a rest is ignored |
| WalCodec.BadRecordHidesTheRest | CommitLog.cpp:14-14 | records appended behind a bad one are never recovered |
| WalState.RunConserves | CommitLog.cpp:56-110 | over any run of writes, syncs and library flushes, file, stdio buffer and batch together are exactly what was appended, in order |
| WalState.LossBound | CommitLog.cpp:85-110 | with real batches a crash after n appends recovers exactly the first n - n % batch_size; stdio is empty and the batch is not full after every call |
| WalState.SyncedSingles | CommitLog.cpp:56-58 | with batches of one and no flushing, a crash right after a sync loses nothing |
| WalState.SpillIsCall | CommitLog.cpp:96-99 | characterises what the C library may do to the buffer on its own |
| CommitLogs.AddRefines | CommitLog.cpp:85-110 | one more record, batched, handed over and flushed on bytes, is one more operation in the abstract log |
| CommitLogs.CommitLog.constructor | CommitLog.cpp:8-23 | the log after opening; on a clean file it holds what the file holds |
| CommitLogs.CommitLog.WriteLogWithCrc | CommitLog.cpp:85-110 | the bytes of file, buffer and batch grow by exactly this record, when they move on, and on a clean log the abstract write |
| CommitLogs.CommitLog.WriteLog | CommitLog.cpp:25-50 | the plain format: the bytes of file, buffer and batch grow by exactly this record |
| CommitLogs.CommitLog.Sync | CommitLog.cpp:56-58 | the buffer moves to the file; the batch does not move |
| CommitLogs.CommitLog.LibrarySpill | CommitLog.cpp:96-99 | any part of the buffer may reach the file early, mid-record included, and nothing is lost |
| CommitLogs.CommitLog.RecoverWithCrc | CommitLog.cpp:112-133 | from the read position, any file content: the recovered operations, inserted in front of the caller's log |
| CommitLogs.CommitLog.Recover | CommitLog.cpp:60-72 | the same for the plain format |
| Replica.AppendReaches | Server.cpp:336-358 | an order fills the next slot of a backup that has the earlier entries, or pushes a forked entry out of that slot; the record becomes the replay of all but the newest entry |
| Replica.CommitReaches | Server.cpp:351-358 | a commit-only request makes the record the replay of the whole log, and moves nothing else |
| Replica.RecoveryReaches | Server.cpp:213-249 | a recovery that reads exactly the missing entries catches the backup up: same log, the entries logged in order, the record the replay up to the primary's commit index |
| Replica.HandshakeExact | ServerStub.h:244-286 | slots l+1..r receive the primary's entries c+1..c+r-l, and l-c entries plus the primary's tail stay unread |
| Replica.HandshakeDrains | Server.cpp:213-249 | the connection is drained if and only if c = l and the primary has no tail; and if c = l an agreeing backup agrees again |
| HandlerLaws.CatchUpRecord | Server.cpp:232-246 | the record, commit index, log and file after catch-up of a backup that agreed: exact if it had committed all it held, otherwise one entry short of what the commit index claims, with the newest entry twice |
| HandlerLaws.CatchUpEffect | Server.cpp:213-249 | any node, any stream that is long enough: what goes into log and file, what is applied, what stays unread, and when the handler throws |
| HandlerLaws.CutEffect | Server.cpp:224-226 | the same for a stream that is not |
| HandlerLaws.OrderEffect | Server.cpp:336-358 | any node, an order that needs no catch-up: inserted at its index, in the file and synced, and the entry at the commit index applied |
| HandlerLaws.CommitOnlyEffect | Server.cpp:351-358 | any node, a commit-only request: nothing but last index and the entry at the commit index |
| HandlerLaws.RecheckEffect | Server.cpp:115-122 | any node: recheckcommit applies the entry at last index and no other |
| Replica.LaggingHandshake | ServerStub.h:251-280 | for c = l - 1 the log agrees afterwards if and only if every missed entry repeats the one before it |
| Replica.CutRecovery | Server.cpp:224-226 | after a cut stream the handler throws if and only if received and kept entries do not reach the primary's commit index; the node it leaves otherwise |
| Replica.TailExact | Server.cpp:324-358 | a backup whose catch-up is cut, or skipped by a commit-only request, is in sync afterwards if and only if its tail holds what was missed, what it skipped does not show, and its file is right |
| Replica.RecoveryExact | Server.cpp:213-249 | a recovery that is not cut short is right and drained if and only if it read the missing entries and nothing else |
| Replica.OneBehind | Server.cpp:331-358 | a commit-only request to a backup one entry behind: the exception if it has no tail, otherwise its first tail entry is applied |
| Replica.RestartExact | Server.cpp:289-316 | the replay loop leaves the log if and only if the fetched index equals a non-zero length; otherwise the resulting indices and record in closed form |
| Replica.DeliveryOutcome | Server.cpp:324-361 | whatever the backup's state and wherever the stream is cut, a delivery leaves the backup in sync with a drained connection if and only if it is not one of the named bad ones |
| ServerStubs.SendRecoveryLog | ServerStub.h:244-264 | the entries behind the received index go out, as far as the connection carries them; none if the index is out of range |
| ServerStubs.GetRecoveryLog | ServerStub.h:270-286 | the log with the received entries in their slots, and what stays unread, wherever the stream ends |
| Server.SocketSurvives | Server.cpp:418-451 | a backup's socket stays open if and only if it acknowledged, at once or after being sent the log |
| Server.SocketReopens | Server.cpp:129-144 | after a recheck a socket is open if and only if it was, and is the same, or its attempt succeeded, and is the new one |
| Server.ServerSocket.RecheckCommit | Server.cpp:115-122 | the node afterwards, or the exception |
| Server.ServerSocket.RecheckReplSock | Server.cpp:129-144 | every closed socket, and only those, is retried |
| Server.ServerSocket.InitiateRecovery | Server.cpp:213-249 | log, file, record, indices and unread bytes after a recovery, complete or cut |
| Server.ServerSocket.IfaThreadRead | Server.cpp:324-361 | the node after a request is `Handle` of the node before it; it throws exactly when `Handle` says so |
| Server.ServerSocket.InitiateRecoveryFromLog | Server.cpp:254-316 | the node after start-up is `Restart` of the recoverable operations, for any file content; it throws exactly when `Restart` says so |
| Server.ServerSocket.EngineerReadDef | Server.cpp:189-206 | the customer's number on record, or -1 |
| Server.ServerSocket.Enqueue | Server.cpp:150-182 | robot and promise go to the end of both lists |
| Server.ServerSocket.SendToBackups | Server.cpp:418-451 | each socket after the loop, from what came back on it |
| Server.ServerSocket.AdminThread | Server.cpp:368-460 | one turn: node, both lists, the promise that is fulfilled, the request sent, the sockets, and the admin id on the robot |
| Server.ServerSocket.ConnectionClosed | Server.cpp:77-87 | stdio is in the file, the batch is where it was, a recheck is allowed |
| AdminQueue.AdminNodeSane | Server.cpp:374-457 | a turn of the admin thread keeps the node's invariant, appends at most the robot's entry, and leaves everything committed |
| AdminQueue.AdminNodeEffect | Server.cpp:374-457 | the node after a turn, for any node: pending entry applied if a recheck is allowed and only then, the order in the file and behind last index, and applied |
| AdminQueue.AdminStepEffect | Server.cpp:374-382 | no recheck is due after a turn; the front robot and promise are gone from the lists |
| AdminQueue.StampedIs | Server.cpp:385-457 | the logged entry of a robot, and the robot its customer gets |
| AdminQueue.CloseIsClientClosed | Server.cpp:77-87 | a client leaving syncs stdio, allows a recheck, changes nothing else, and is the protocol's step on the primary |
| AdminQueue.AdminStepIsBeginAndFinish | Server.cpp:368-460 | the turn of the class is what the protocol's two halves do to the primary |
| Turns.RecheckReaches | Server.cpp:129-144 | the send loop starts with the sockets that were open and, if a recheck was allowed, the closed ones whose attempt succeeded |
| Turns.SendLoop | Server.cpp:418-451 | the send loop is a run of deliveries and failed sends, and the sockets open after each are those still to serve and those that acknowledged |
| Turns.TurnIsRun | Server.cpp:368-460 | a turn of the class is a run of the protocol: node, recheck_allow and the set of open sockets end up the same |
| AdminQueue.AdminNeverStuck | Server.cpp:370-382 | a robot in the one list always finds its promise in the other |
| AdminQueue.QueueDiscipline | Server.cpp:150-182 | under every interleaving: lists paired, every order logged once in enqueue order, enqueued = processed + queued, each promise fulfilled once by its own step, no robot shipped twice, and every robot shipped or waited for |
| PrimaryReads.ShippedIsCommitted | Server.cpp:452-458 | when a robot ships, its entry is in its slot and committed |
| PrimaryReads.ReadIsNewestCommitted | Server.cpp:189-206 | a read between admin steps is the newest committed write, or -1 |
| PrimaryReads.ReadAfterShipment | Server.cpp:150-206 | a read that begins after a shipment returns a value written at the shipped entry's slot or behind it |
| PrimaryReads.FreshCustomerCounts | ClientThread.cpp:29-42 | a new customer's connection has exactly 1..j in the log and reads j |
| ClusterProofs.InitialInv | Server.cpp:574-595 | the invariant holds of an empty cluster |
| ClusterProofs.BeginKeeps | Server.cpp:374-416 | recheck, append and request keep the invariant |
| ClusterProofs.DeliverKeeps | Server.cpp:324-361 | every delivery, good, bad, cut or fatal, keeps it |
| ClusterProofs.FinishKeeps | Server.cpp:452-458 | commit and release keep it |
| ClusterProofs.CrashKeeps | Server.cpp:368-460 | a crash of any node at any point keeps it |
| ClusterProofs.PromoteKeeps | Server.cpp:374-378 | turning to any other undamaged node keeps it, whatever that node lacks |
| ClusterProofs.RestartKeeps | Server.cpp:254-316 | a restart, with any answer from a peer, keeps it |
| ClusterProofs.ResumeKeeps | Server.cpp:254-316 | the last primary coming back as primary from its file keeps it |
| ClusterProofs.ReachableInv | Server.cpp:324-460 | so it holds of every reachable cluster |
| ClusterProofs.FileIsPrefix | Server.cpp:254-316 | the file of a node without a tail is a prefix of the primary's log as far as the two logs agree |
| Batches.NodeLossBound | CommitLog.cpp:85-110 | on every run the file of an undamaged node without a tail is its log up to the last whole batch, so a crash costs it its newest length % 10 entries |
| ClusterTheorems.LogAgreement | Server.cpp:324-361 | between admin steps connected backups have the primary's last index and log, disconnected ones a prefix or one uncommitted entry more, and files of dead nodes a prefix |
| ClusterTheorems.EveryNodeSane | Server.cpp:115-122 | in either role: indices ordered, commit lag at most one, record = replay of the committed entries, log file = log |
| ClusterTheorems.NeverUndefined | Server.cpp:337-405 | no vector position past the end, on any run |
| ClusterTheorems.NothingBlocks | Server.cpp:324-460 | the guards forbid nothing: crashes in mid-step, any answer and any cut, promotion of any undamaged node are possible in every reachable cluster |
| ClusterTheorems.BeginLoses | Server.cpp:392-416 | the nodes a step passes over are lost if and only if they do not follow the primary's log any more |
| ClusterTheorems.DropLoses | Server.cpp:418-425 | a failed send loses its backup if and only if that holds another entry in the order's slot |
| ClusterTheorems.CrashLoses | Server.cpp:254-316 | a crash loses the node if and only if its file is no prefix of the primary's log, and with a primary in mid-step the waiting backups with another entry |
| ClusterTheorems.PromoteLoses | Server.cpp:374-378 | a promotion loses exactly the nodes that do not follow the promoted node's log |
| Failover.ShippedEverywhere | Server.cpp:150-163 | every shipped order is in the primary's log, committed there once it has taken a step, and at the same index in every surviving log that reaches that far |
| Failover.SafeSuccessor | Server.cpp:418-451 | a survivor holds every shipped order if and only if its last index reaches the last of them |
| Failover.FailoverSafety | Server.cpp:368-460 | a backup served once stays undamaged while its socket is open; if the primary then crashes anywhere in a step or between steps, even before this step's send to it, it can be promoted and holds every shipped order |
| Failover.PromotionRecovers | Server.cpp:374-378 | after a promoted node's first recheck its record is the replay of all it holds, with every shipped order included if and only if it was a safe successor |
| Failover.PromotionForgets | Server.cpp:374-378 | a promotion loses exactly the shipped orders behind the promoted node's last index |
| Failover.ResumeForgets | Server.cpp:254-316 | a primary that comes back as primary forgets exactly the shipped orders its file does not reach, or a smaller non-zero answer of a peer |
| Failover.ReadsSeeShipped | Server.cpp:150-206 | after a shipment, failovers included, a read on the primary, or on a survivor that has committed that far, returns the shipped order or a later one of that customer |
| Failover.ShippedForever | Server.cpp:368-460 | a shipped order keeps its index through every later step, failovers included, unless a node is promoted whose log does not reach it |
| ClusterTheorems.BoundedStaleness | Server.cpp:412-457 | a connected backup's reads differ from the primary's for the newest entry's customer at most |
| ClusterTheorems.CommitOnlyConverges | Server.cpp:169-182 | after a commit-only step they do not differ |
| ClusterTheorems.RunGrowsCommitted | Server.cpp:354-358 | what an uninterrupted node has committed only grows, in any role |
| CustomerReads.RunNumbers | ClientThread.cpp:29-42 | over any run, failovers included, the orders of a customer that numbers each order one higher than the log has of it stay 1, 2, 3, ... |
| CustomerReads.ReadsCountOrders | ClientThread.cpp:29-42 | so every surviving node's record has the number of that customer's orders it has committed |
| CustomerReads.MonotoneReads | Server.cpp:189-206 | and the customer never reads a smaller number from a node that runs on, in either role, whatever happens to the others |
| CustomerReads.NumbersByReceipt | ClientThread.cpp:29-42 | a client that numbers by the orders it received and stops at the first change of primary numbers by the primary's log |
| CustomerReads.ClientReads | ClientThread.cpp:29-42 | so such a client's customer never reads a smaller number from a node that runs on |
| CarefulRuns.NobodyLost | Server.cpp:213-361 | over every run that meets the four conditions no node is lost, none carries a tail, and every node that is up has a prefix of the primary's log |
| CarefulRuns.RejoinConverges | Server.cpp:254-316 | a killed backup that restarts from its file and is reached by some later order, after any steps that leave it alone, ends with the log, commit index and record of one that never crashed |
| ForkAbsorption.ForkAbsorbed | Server.cpp:331-358 | over any later requests a survivor's forked entry stays unchanged behind last_index, its log agrees with the new primary's, and the entry is never applied |
| ForkAbsorption.FileKeepsFork | Server.cpp:339-348 | the log file of such a survivor spells out the forked entry as well, so it is no longer its log |
| Hypotheses.PendingEntryIsSkipped | Server.cpp:453-456 | an admin step with a pending entry and no recheck skips it; the record is right if and only if that entry would not have shown |
| Hypotheses.MinusOneIsNoCustomer | Server.cpp:392-392 | an order of customer -1 is released and leaves no trace |
| Hypotheses.RecoveryRepairsNothing | ServerStub.h:270-286 | a slot in which a node disagrees with the primary still disagrees after catch-up |
| Hypotheses.ForkedRestart | Server.cpp:299-313 | a restart commits a forked entry if and only if the fetched index is 0 or not below it; the record is right after the next order if and only if it was not committed or does not show, and in the first slot it always shows |
| Hypotheses.ForkHappens | Server.cpp:418-451 | a concrete run after which a survivor holds an entry the new primary lacks |
| Hypotheses.TailIsLoggedTwice | Server.cpp:232-241 | after a restart and catch-up the file spells out the log if and only if the restart kept no entries beyond its last index |
| Hypotheses.FileAfterTail | Server.cpp:232-241 | after a restart with a tail and catch-up the file is still a prefix of the primary's log if and only if every entry that was written again equals the one due in its place |
| Incidents.ServingRun | Server.cpp:336-350 | any orders to a connected backup: all shipped, the backup has them and lags by one commit |
| Incidents.LaggingRun | ServerStub.h:251-280 | a run: served once, away for one order, the reconnected backup has the first order twice in log and file, claims a commit index whose entry is not in its record, and leaves the last entry unread |
| Incidents.LateComerRun | Server.cpp:224-358 | runs: a backup reached one order late dies of a commit-only request, and of a catch-up cut at once, and outlives its log if it is cut after one entry |
| Incidents.RestartDies | Server.cpp:299-304 | runs: after 10q + 1 orders a connected backup that crashes cannot come up while the primary answers |
| Incidents.ForgetfulLogsTwice | Server.cpp:232-241 | runs: a node restarted on the answer -1 and caught up has the log twice in its file |
| Incidents.ForgetfulAppliesWrong | Server.cpp:352-358 | runs: the same with the catch-up cut after one entry applies the ninth order for the tenth |
| Incidents.PrimaryAgain | Server.cpp:453-456 | primary, backup, primary: the order taken as backup is committed and in no record |
| Incidents.ForkStays | ServerStub.h:270-286 | the survivor of the forked run keeps the entry that was never shipped through catch-up |
| Hypotheses.OpenSocketIsNotEnough | Server.cpp:129-144 | a concrete run that ends with an order shipped and an undamaged node with an open socket that lacks it |
| LoadBalancer.RobotFactory.CheckMasterLocked | load_balancer/ServerThread.cpp:33-50 | the master and the decision after the locked part |
| LoadBalancer.RobotFactory.SelectWorker | load_balancer/ServerThread.cpp:77-101 | the pointer and the worker picked |
| LoadBalancer.RobotFactory.HeartBeatStart | load_balancer/ServerThread.cpp:150-159 | the heartbeat starts by taking all nodes for healthy |
| LoadBalancer.MasterChangesOnlyWhenSick | load_balancer/ServerThread.cpp:33-57 | the master changes only in a call that found it unhealthy, to the lowest healthy id; there is none only if no node is healthy |
| LoadBalancer.WorkerChoiceExact | load_balancer/ServerThread.cpp:74-103 | a healthy turn is routed and the pointer moves on by one; a sick one leaves it, and goes to node 0 if and only if that is healthy; refused if and only if no node is healthy; NULL stub if and only if the turn and node 0 are sick and another is not |
| LoadBalancer.NullStubHappens | load_balancer/ServerThread.cpp:74-103 | with two nodes or more the first session after node 0 misses a heartbeat meets the NULL stub |
| LoadBalancer.HealthIsLastWord | load_balancer/ServerThread.cpp:146-181 | through any interleaving a node is healthy if and only if it answered its last heartbeat since the heartbeat thread started, or had none since |
| LoadBalancer.AlwaysFormed | load_balancer/ServerThread.cpp:74-181 | pointer and master stay in range under every interleaving |
| LoadBalancer.ReturnedMasterWasHealthy | load_balancer/ServerThread.cpp:33-57 | the master id read without the lock was healthy at some moment inside the call |
| LoadBalancer.RoundRobinIsFair | load_balancer/ServerThread.cpp:96-101 | while all nodes are healthy no node serves two sessions more than another |

## Left out

- CustomerReads.MonotoneReads: a client that after a failover sends again an order that was logged
  but not acknowledged does not number by the primary's log; the one in ClientThread.cpp stops.
- CarefulRuns.RejoinConverges: the primary carries nothing beyond its last index, since otherwise
  the handshake leaves bytes in the connection (Replica.HandshakeDrains).
- Sockets, threads, accept loops, argument parsing, printing, timing and memory management. A
  connection is a FIFO of whole messages that ends or not; a receive of zero bytes, which the
  stubs take for success, is an error here. An unlocked write to recheck_allow is one step.
- A request that is still in flight when its sender dies is handled before the next primary's
  first request, or never.
- A second node acting as primary while the first is up, and a node that goes back from primary
  to backup without a restart (but see Incidents.PrimaryAgain): Promote needs the primary to be down, and the promoted node's
  recheck_allow to be set as it is at start.
- Promotion of a node in `lost`: its log may hold anything.
- A crash in the middle of writing a batch leaves the file whole in the protocol; the torn file
  itself is covered by WalCodec.TornTail, and appending behind a damaged record by
  WalCodec.BadRecordHidesTheRest.
- I/O errors of the log file end the process in the source and do not occur here.
- The CRC-32 function itself (section 8 of RFC 1952) and its 4-byte values beyond being a
  function of the data.
- 32-bit overflow of log indices; they are unbounded integers. Customer ids and order numbers
  are 32-bit.
- The C++ `robot_inf` the admin thread writes through a pointer into the engineer's stack is a
  value that AdminThread returns; a promise is a number. Aliasing between them is not modelled.
- The endless loops of admin_thread, ifa_thread_body, LoadBalancerThread and HertBeatHandler are
  modelled one turn at a time.
- Which peer answers first in initiate_recovery_from_log: the index it answers is a parameter, and
  the theorems hold for every value.
- Nodes of the load balancer whose ids are not 0..n-1.
- load_balancer/Messages.cpp, load_balancer/Socket.cpp and ClientTimer.cpp: field copies, a short
  send/receive loop and timing sums that would only add easy members.
- CommitLog.GetDiskThroughput and the performance counters.
