# PgCat in Dafny

A model of the parts of PgCat, a PostgreSQL connection pooler written in Rust, whose correctness is
not evident from reading one function: the transaction pooling protocol, failover, the query router,
SCRAM authentication, and the hash and wire arithmetic below them. `dafny verify dfyconfig.toml`
checks everything.

The project follows the program. Where PgCat updates an object or a buffer step by step there is a
class or a method with a loop, proved against a function on values; what the program is for is then
proved about that function, over every input or every run.

| file | what it models |
|---|---|
| `Connection.dfy`, `Server.dfy` | a server connection: `send`, `recv`, `query`, `checkin_cleanup`, `set_name`, and the PostgreSQL at the other end |
| `Session.dfy`, `Client.dfy` | the nested loops of `Client::handle` |
| `Batches.dfy`, `Witnesses.dfy` | what reaches the server, and sessions that break the theorems' conditions |
| `Pooler.dfy` | all interleavings of clients that share a pool and the cancel map |
| `Failover.dfy`, `Placement.dfy`, `Pause.dfy` | `ConnectionPool`: the candidate loop, ban lists, addresses, pause and resume |
| `Pruning.dfy`, `Bind.dfy`, `Router.dfy`, `Routing.dfy`, `Parameters.dfy` | the query router, and routing over whole runs |
| `Scram.dfy` | the SCRAM-SHA-256 client |
| `Sharding.dfy`, `Wire.dfy`, `Text.dfy` | hashing, message encoding, numerals |

**The outside world.** A backend is a function from what has been sent to it to what it answers, or
to a failed write; its answer may stall or stop anywhere. `PostgreSQL` says that it keeps to the
reply grammar of the Frontend/Backend Protocol ("Message Flow" and "Message Formats", PostgreSQL 12).
The client's socket fails after a given number of writes. Clocks, random draws, health checks, the SQL
parser, the regular expressions and the cryptographic primitives are functions or values that every
theorem quantifies over. A Rust panic ends the run and is a separate outcome.

**Where a natural claim is false.** The code is modelled as it is. A lemma shows an input or a family
of inputs on which the claim fails, and another says exactly where it holds:

- A SET that completes inside a transaction is not noticed (`Witnesses.SetInTransactionIsMissed`,
  `Connection.ChangeFlaggedExactly`), nor is a named Parse that is not the first of its batch
  (`Witnesses.LateParseIsMissed`, `Session.NamedParseFlaggedExactly`).
- The flag put back by `set_name` hides a change made by an application_name that ends its literal
  (`Witnesses.QuotedRenameIsMissed`, `Witnesses.RenameExact`, `Witnesses.SessionLeavesNothingExactly`).
- CopyData, CopyDone and CopyFail outside COPY FROM STDIN leave a connection out of step with its
  backend (`Witnesses.CopyDoneLeavesMidReply`, `Session.CopyTurnExact`).
- An idle timeout that cannot be reported skips the cleanup
  (`Witnesses.IdleTimeoutLeavesTransaction`, `Session.SessionHygiene`), and one that can leaves the
  open batch in the buffer (`Witnesses.AbandonedBatchTravelsOn`, `Batches.SendsStayApart`).
- A cancel entry outlives the hold on its connection while a client that failed is being dropped
  (`Pooler.StaleEntryNamesAnother`, `Pooler.StaleExactlyWhileDying`).
- A Query overtakes an extended batch that has not been closed (`Batches.SendsSpellStream`).
- Servers with the Mirror role can be banned but are not counted, and then it can be that no server
  is tried (`Failover.MirrorBanBlocksAll`, `Failover.LengthTestExactExactly`, `Failover.TriedExactly`).
- Shard keys that pass validation can be misplaced (`Placement.LoneShardOneIsMisplaced`,
  `Placement.PlacementExact`).
- OR, and equality of an equality, defeat shard pruning (`Pruning.OrGoesAstray`,
  `Pruning.EqualityOfEqualityGoesAstray`, `Pruning.PruningExact`); a placeholder is recorded whatever
  it is compared with (`Parameters.PlaceholderGoesAstray`, `Parameters.BoundPruningExact`).
- The bytes of a Bind parameter that is not recorded are not skipped
  (`Bind.LaterRecordedIsMisread`, `Bind.BindExact`).
- The first query of a client is routed before the settings are known
  (`Routing.FirstVisitIsUninferred`, `Routing.RoutedRightExactly`), and a shard number in a comment is not checked
  (`Routing.CommentLeavesRange`, `Routing.StepInRange`).
- The SCRAM parser deletes "r=" inside a nonce and "s=" inside a salt, and the pooler may itself draw
  such a nonce (`Scram.OwnNonceCanFail`, `Scram.OwnNonceExact`, `Scram.ExchangeExact`).

Where the code and its comments differ the model follows the code: SET PRIMARY READS accepts ON, OFF
and DEFAULT in any case and acts only on the lower-case words, and custom commands lose their first
four bytes once a comment pattern is configured.

## Model

| member | source | states |
|---|---|---|
| Connection.RecvConserves | pgcat/src/server.rs:531-671 | a chunk is exactly the messages read since the last one, whole and in order; the transaction flag is what the last ReadyForQuery said and the data flag whether rows or a COPY OUT came since |
| Connection.PumpConserves | pgcat/src/client.rs:1303-1319 | over a whole reply the chunks join up to exactly the messages read; a reply cut off by a failed read, a timeout or a failed write has been forwarded up to some message, with nothing lost, repeated or invented before it |
| Connection.RecvStopsAt | pgcat/src/server.rs:549-664 | the only messages at which `recv` hands its buffer on |
| Connection.RecvBreaksOff | pgcat/src/server.rs:531-671 | exactly which replies break off before `recv` has a chunk to hand on |
| Connection.PumpStopsAt | pgcat/src/client.rs:1303-1319 | the reply loop ends well only after ReadyForQuery, or after CopyInResponse or CopyData with no DataRow or CopyOutResponse since the last ReadyForQuery |
| Connection.RecvMid | pgcat/src/server.rs:531-671 | with a backend that keeps to the grammar, a chunk either ends the reply or leaves the data flag set |
| Connection.PumpMid | pgcat/src/client.rs:1303-1319 | such a reply is read to its very end, or the connection is bad |
| Connection.ExchangeKeepsSync | pgcat/src/client.rs:1281-1329 | a request to a connection in sync leaves it in sync or bad; the cleanup flag is set exactly by the completions `recv` looks for |
| Connection.ExchangeDeliversReply | pgcat/src/client.rs:1281-1329 | the client is sent exactly what the backend answered |
| Connection.CleanupCleans | pgcat/src/server.rs:739-761 | cleanup makes a connection in sync fit for the next client, or bad |
| Connection.RenameKeepsSync | pgcat/src/server.rs:764-779 | `set_name` keeps sync and restores the cleanup flag, or makes the connection bad |
| Connection.ChangeFlaggedExactly | pgcat/src/server.rs:588-612 | exactly when a change completed in a reply is flagged |
| Connection.ExchangeTracks | pgcat/src/server.rs:588-612 | the flag over-approximates "the session was changed" across a request, under the stated conditions |
| Connection.CleanupErases | pgcat/src/server.rs:739-761 | after cleanup nothing of the client is left in the session |
| Connection.RenameTracks | pgcat/src/server.rs:764-779 | for a name that stays within its quotes, putting the flag back never hides a client's change |
| Connection.UnquotedStaysQuoted | pgcat/src/server.rs:771-772 | every name without a quote stays within its quotes |
| ServerObject.Server.Send | pgcat/src/server.rs:510-526 | the object does what `Send` says of its value, and marks itself bad exactly on a failed write |
| ServerObject.Server.Recv | pgcat/src/server.rs:531-671 | the reading loop on the object's fields computes `Recv` |
| ServerObject.Server.Ask | pgcat/src/server.rs:721-735 | `query` computes `Ask` |
| ServerObject.Server.CheckinCleanup | pgcat/src/server.rs:739-761 | `checkin_cleanup` computes `Cleanup`, and succeeds exactly when that is done |
| ServerObject.Server.SetName | pgcat/src/server.rs:764-779 | `set_name` computes `Renamed` |
| Session.TurnHygiene | pgcat/src/client.rs:1017-1239 | what each way of ending a turn of the inner loop leaves of the connection, harmless copy messages included |
| Session.RunHygiene | pgcat/src/client.rs:723-1251 | every step of a session keeps the hygiene invariant |
| Session.SessionHygiene | pgcat/src/client.rs:723-1251 | whatever the client does short of a harmful copy message, and wherever the session is cut off, every connection handed back is bad, or read up to ReadyForQuery, idle and clean; for the one exit that skips cleanup, exactly when it is so |
| Session.CopyTurnExact | pgcat/src/client.rs:1185-1231 | a copy message outside COPY FROM STDIN leaves the connection fit exactly if it only fills the buffer or is ignored (CopyData), or the connection breaks on the write, on the answer or on the client (all three), told from the request and the reply |
| Session.NamedParseFlaggedExactly | pgcat/src/client.rs:1144-1158 | exactly when a batch that prepares a named statement sets the cleanup flag |
| Session.TurnTracks | pgcat/src/client.rs:1017-1239 | no turn leaves a change of the session unflagged, under the stated conditions |
| Session.RunTracks | pgcat/src/client.rs:723-1251 | nor does any run |
| Session.SessionLeavesNothing | pgcat/src/client.rs:1144-1158 | under the stated conditions a connection handed back unspoilt holds nothing of the client: no variable set, no prepared statement |
| ClientObject.Client.Forward | pgcat/src/client.rs:1347-1399 | one `recv` under the statement timeout and one write to the client |
| ClientObject.Client.ReceiveLoop | pgcat/src/client.rs:1303-1319 | the reply loop computes `Pump`, chunk by chunk |
| ClientObject.Client.SendAndReceiveLoop | pgcat/src/client.rs:1281-1329 | computes `Exchange` |
| ClientObject.Client.TakeTurn | pgcat/src/client.rs:1017-1239 | one turn of the inner loop computes `Iterate` |
| ClientObject.Client.TakeSendingTurn | pgcat/src/client.rs:1076-1231 | the messages that are forwarded |
| ClientObject.Client.SendCopyEnd | pgcat/src/client.rs:1199-1231 | CopyDone and CopyFail: the buffer is sent, one chunk comes back |
| ClientObject.Client.SendHeld | pgcat/src/client.rs:1185-1196 | CopyData past the limit: the buffer is sent and no answer awaited |
| ClientObject.Client.HoldConnection | pgcat/src/client.rs:1017-1248 | the inner loop refines the session machine up to the release of the connection |
| ClientObject.Client.Borrow | pgcat/src/client.rs:847-1016 | the refusals, commands and grants of the outer loop |
| ClientObject.Client.Handle | pgcat/src/client.rs:723-1251 | both loops together compute `Session.Run` on every stream of events |
| Batches.TurnSends | pgcat/src/client.rs:1017-1239 | the connection gets exactly what the turn is recorded to send |
| Batches.StepSends | pgcat/src/client.rs:792-975 | an event sends the unit it completes, whole or not at all |
| Batches.RunSendsUnits | pgcat/src/client.rs:792-1170 | on every stream of Q, P, B, D, E, S and idle timeouts: every batch, with what a timeout left of an earlier one, travels as exactly its own messages, in order and in one send, or not at all |
| Batches.RunSendsAll | pgcat/src/client.rs:792-1170 | when every connection asked for is granted nothing is dropped, idle timeouts or not |
| Batches.UnitsSpellStream | pgcat/src/client.rs:1115-1180 | the units of a stream spell it exactly when every batch is closed before the next Query |
| Batches.SendsSpellStream | pgcat/src/client.rs:792-1180 | so do the sends of a session, and the batch it holds, when every connection is granted |
| Batches.UnitsStayApart | pgcat/src/client.rs:1037-1056 | the requests are what they would be if every idle timeout dropped the open batch, exactly when no timeout finds a batch open that a Sync still closes |
| Batches.SendsStayApart | pgcat/src/client.rs:1037-1056 | so it is with what a session sends from the start, when every connection is granted |
| Witnesses.SetInTransactionIsMissed | pgcat/src/server.rs:588-612 | a lawful backend and two turns that leave a variable set on a connection that passes cleanup |
| Witnesses.CopyDoneLeavesMidReply | pgcat/src/client.rs:1199-1231 | a lawful backend and one turn that leave a connection in mid-reply that passes cleanup |
| Witnesses.RenameExact | pgcat/src/server.rs:764-779 | putting the flag back never hides a change, on any lawful backend, exactly for names whose quotes come in pairs up to the last character |
| Witnesses.QuotedRenameIsMissed | pgcat/src/server.rs:764-779 | for every other name, a lawful backend whose session the renaming changes on a connection that passes cleanup |
| Witnesses.SessionLeavesNothingExactly | pgcat/src/client.rs:723-1251 | no session that keeps the other conditions leaves anything behind, exactly if its application_name stays within its quotes |
| Witnesses.LateParseIsMissed | pgcat/src/client.rs:1144-1158 | a lawful backend and a batch whose named Parse is not first: the statement stays on a connection that passes cleanup |
| Witnesses.IdleTimeoutLeavesTransaction | pgcat/src/client.rs:1037-1039 | BEGIN, then an idle timeout that cannot be reported: the connection goes back inside the transaction |
| Witnesses.AbandonedBatchTravelsOn | pgcat/src/client.rs:1037-1056 | a run from the start: BEGIN, Parse, a reported idle timeout, Describe, Sync; the Parse is sent in one batch with the Describe |
| Pooler.ApplyKeepsLedger | pgcat/src/client.rs:930-1248 | every step of every task, whatever clients and servers do, keeps connections lent to one client at most and the cancel map right |
| Pooler.ApplyKeeps | pgcat/src/client.rs:930-1248 | every allowed step of every task keeps idle connections ready and lent ones as fit as their borrower's stage says, by the flags alone or down to the session |
| Pooler.IdleConnectionsAreClean | pgcat/src/client.rs:1237-1248 | in every interleaving without harmful copy messages and skipped cleanups all idle connections are fit for the next client |
| Pooler.IdleConnectionsArePristine | pgcat/src/client.rs:1237-1248 | in every interleaving where moreover no change goes unseen, nothing of any client is left in any idle connection |
| Pooler.CancelMapInvariant | pgcat/src/server.rs:705-716 | in every interleaving: no entry at the top of the outer loop, in the inner loop the one of the connection held, never the same for two clients |
| Pooler.StaleExactlyWhileDying | pgcat/src/client.rs:1401-1404 | exactly when an entry names a connection its client does not hold |
| Pooler.StaleEntryNamesAnother | pgcat/src/client.rs:1276-1279 | a run from the start, for any two clients and any clean connection, after which both entries name it |
| Pooler.HealthCheckKeepsSync | pgcat/src/pool.rs:624-680 | a health check reads all of its own answer, or the connection is bad |
| Failover.LengthTestExact | pgcat/src/pool.rs:720-747 | the length test says "all replicas are banned" exactly when they are, if only replicas are banned |
| Failover.LengthTestExactExactly | pgcat/src/pool.rs:720-747 | it is exact for every set of bans that can arise, exactly in a shard without Mirror-role servers |
| Failover.VisitsInOrder | pgcat/src/pool.rs:552-620 | candidates are visited from the last to the first, judged under the bans of the moment, and only the last visit finds a server up |
| Failover.ServerIsLast | pgcat/src/pool.rs:552-620 | the server returned is the one visited last |
| Failover.BansAreThreaded | pgcat/src/pool.rs:552-620 | the bans of the moment are those of the call as the earlier visits changed them |
| Failover.SomeServerIsTried | pgcat/src/pool.rs:535-622 | at least one server is tried if one matches, and the shard has no Mirror-role server or some matching server is a primary |
| Failover.TriedExactly | pgcat/src/pool.rs:535-622 | for every role, some server is tried whatever the servers do and whichever of them are banned, exactly in those cases |
| Failover.UsableServerIsFound | pgcat/src/pool.rs:535-622 | the call succeeds, with a matching server, if some matching unbanned server would pass |
| Failover.DownMeansAllTried | pgcat/src/pool.rs:535-622 | all servers are reported down only if each matching one failed in this call or was under a ban still running |
| Failover.LeastBusyIsServed | pgcat/src/pool.rs:540-620 | the server returned has the fewest busy connections among the matching ones not found down or under a ban before it |
| Failover.MirrorBanBlocksAll | pgcat/src/pool.rs:720-747 | with a banned Mirror-role server the list is never cleared and nothing is tried |
| Failover.BanListsHoldReplicas | pgcat/src/pool.rs:682-773 | in every interleaving of bans, unbans and clears, a shard's list holds only that shard's replicas |
| Failover.ConnectionPool.Ban | pgcat/src/pool.rs:682-697 | all ban lists after a ban; a primary is never banned |
| Failover.ConnectionPool.Unban | pgcat/src/pool.rs:700-704 | all ban lists after an unban |
| Failover.ConnectionPool.TryUnban | pgcat/src/pool.rs:720-773 | clears the shard, lifts an expired ban, or refuses; the counting loop included |
| Failover.ConnectionPool.TryServer | pgcat/src/pool.rs:552-620 | one candidate: its verdict and the bans it leaves |
| Failover.ConnectionPool.Get | pgcat/src/pool.rs:529-622 | the candidate loop computes `Drain` |
| Placement.IdsAreDistinct | pgcat/src/pool.rs:237-305 | no two addresses of a pool, mirrors included, share an id |
| Placement.PoolAt | pgcat/src/pool.rs:254-305 | the address at position j of shard s stands for its j-th server and carries its number and index |
| Placement.ShardsInPlace | pgcat/src/pool.rs:240-251 | sorting the keys by number puts shard s at position s, for every s, exactly when they are the numbers 0 to n-1 |
| Placement.PlacementExact | pgcat/src/pool.rs:359-366 | every address finds its own pool and ban list exactly in that case |
| Placement.LoneShardOneIsMisplaced | pgcat/src/config.rs:519-523 | a pool with the one shard "1", the one of a default pool, passes validation and is misplaced |
| Placement.BuildMirrors | pgcat/src/pool.rs:262-286 | the loop over mirrors, with the running id |
| Placement.BuildShard | pgcat/src/pool.rs:254-361 | the loop over servers, with the running id and replica number |
| Placement.BuildPool | pgcat/src/pool.rs:254-366 | the loop over shards |
| Placement.FromConfig | pgcat/src/pool.rs:237-368 | the vectors built, consistent exactly when the shards are numbered from 0 and then with distinct addresses; a panic exactly when some key is no `i64` |
| Pause.WakeupsAreNeverLost | pgcat/src/pool.rs:501-526 | in every interleaving of waiters, pauses and resumes, a waiter that cannot be woken implies a paused pool or a resume that has yet to notify |
| Pause.EveryoneCanGoOn | pgcat/src/pool.rs:506-526 | once the pool is resumed and every resume has finished, every waiter can go on |
| Pruning.PinnedHolds | pgcat/src/query_router.rs:564-671 | under three-valued SQL semantics a pinned condition is true only of rows whose key is on the shard of the literals found in it |
| Pruning.PruningExact | pgcat/src/query_router.rs:674-784 | with a pinned condition, one shard gives the answer of the whole table, for every table; and only then, for conditions of AND and OR over key tests, opaque tests and equalities of columns and parameters |
| Pruning.PruningPreservesMeaning | pgcat/src/query_router.rs:674-784 | with a pinned condition every row that satisfies the query has a key, and it hashes to the inferred shard |
| Pruning.ConjunctiveIsPinned | pgcat/src/query_router.rs:674-784 | a literal found in a query without OR and without keys inside equalities pins it |
| Pruning.OrGoesAstray | pgcat/src/query_router.rs:629-632 | a query with OR sent to one shard, and a row with any key that satisfies it |
| Pruning.EqualityOfEqualityGoesAstray | pgcat/src/query_router.rs:585-586 | likewise for an equality inside an equality |
| Pruning.ReversedTestIsUnseen | pgcat/src/query_router.rs:580-583 | a query whose second test the router does not recognise: not pinned, and right all the same |
| Parameters.BoundPruningSound | pgcat/src/query_router.rs:564-671 | with `key = $n` among the key tests and all keys, literals and arguments, on one shard, every row that satisfies a pinned query is on that shard |
| Parameters.BoundPruningExact | pgcat/src/query_router.rs:564-671 | and only a pinned query has all its rows there, as long as its other tests can be met together |
| Parameters.BoundQueryIsRouted | pgcat/src/query_router.rs:429-560 | through the router: placeholders recorded from the statement, a Bind with an argument for each, and the shard it moves the client to |
| Parameters.PlaceholderGoesAstray | pgcat/src/query_router.rs:653-663 | Parse of `x = $1`, Bind of v: the client is moved to the shard of v, and a row with any key satisfies the query |
| Bind.ReadFormats | pgcat/src/query_router.rs:468-491 | the loop over format codes computes `FormatsOf`, panics included |
| Bind.CollectShards | pgcat/src/query_router.rs:493-545 | the cursor loop over parameters collects the shards of exactly the values `Scan` finds |
| Bind.BindRoundTrip | pgcat/src/query_router.rs:465-545 | every well-formed Bind, with no, one or n format codes, text or 2-, 4- or 8-byte integers, is read back when the recorded parameters come first |
| Bind.AllRecordedRoundTrip | pgcat/src/query_router.rs:465-545 | with every parameter recorded exactly the encoded integers come back |
| Bind.BindExact | pgcat/src/query_router.rs:495-545 | all messages of up to n parameters are read right exactly when the recorded positions are initial |
| Bind.LaterRecordedIsMisread | pgcat/src/query_router.rs:509-545 | for every other set of positions, a well-formed message that is misread |
| Router.QueryRouter.TryExecuteCommand | pgcat/src/query_router.rs:133-325 | comment patterns on the part searched, commands and regular queries as `TryExecute` says; panics included, that of a length word too small to search too |
| Router.QueryRouter.Perform | pgcat/src/query_router.rs:221-324 | every custom command: the new state and the value answered |
| Router.QueryRouter.Infer | pgcat/src/query_router.rs:328-422 | the state after a Query or Parse message |
| Router.QueryRouter.InferStatements | pgcat/src/query_router.rs:377-419 | the loop over statements, left at the first that is not a read |
| Router.QueryRouter.InferShard | pgcat/src/query_router.rs:674-784 | the loops over tables, joins, conditions and keys return the inferred shard and record the placeholders in order |
| Router.QueryRouter.Collect | pgcat/src/query_router.rs:691-728 | the table names and the inner join conditions of the FROM list |
| Router.QueryRouter.Record | pgcat/src/query_router.rs:752-763 | literals give shards, placeholders are remembered |
| Router.QueryRouter.InferShardFromBind | pgcat/src/query_router.rs:429-560 | the state after a Bind message, with every early return |
| Routing.Turn | pgcat/src/client.rs:792-936 | the client's loop body on the router object computes `Step`: the checkouts it makes and the state it leaves |
| Routing.CheckOut | pgcat/src/client.rs:860-936 | from the refresh of the settings to the checkout, a rejected SET SHARD restored |
| Routing.RoleSticks | pgcat/src/query_router.rs:276-306 | with the parser switched off every checkout of every run asks for the same role until the next SET SERVER ROLE |
| Routing.RoleCommandHolds | pgcat/src/client.rs:805-936 | after SET SERVER ROLE TO primary, replica or any, every later checkout asks for that role |
| Routing.InferredRole | pgcat/src/query_router.rs:359-421 | the inferred role is primary exactly when the message does not parse, is empty or has a statement that is not a plain query; otherwise it is the role for reads |
| Routing.AutoFollows | pgcat/src/client.rs:805-829 | with the parser on, by command or by the settings, every checkout of every run asks for the primary exactly when the last message parsed needs it |
| Routing.AutoCommandFollows | pgcat/src/query_router.rs:293-296 | so after SET SERVER ROLE TO auto |
| Routing.FirstVisitIsUninferred | pgcat/src/client.rs:805-860 | the first query of a client is routed with no role, whatever it says |
| Routing.SettingsFollow | pgcat/src/client.rs:805-860 | from connection on, with the parser on in the settings, so does every checkout after the first message that asks for a connection |
| Routing.RoutedRightExactly | pgcat/src/client.rs:805-860 | a client's whole run, first batch included, is routed right if and only if the message that decides on its first checkout does not need the primary |
| Routing.SettingsInfer | pgcat/src/query_router.rs:811-820 | once settings with the parser on are loaded a Query is routed by its statements |
| Routing.StepInRange | pgcat/src/client.rs:860-890 | a step keeps the shard in range exactly when a shard number found in a comment is |
| Routing.ShardAlwaysInRange | pgcat/src/query_router.rs:802-808 | from connection on, every checkout of every run names a shard the pool has |
| Routing.CommentLeavesRange | pgcat/src/query_router.rs:146-161 | a query with a number in front, and a pattern that reads it, for which the checkout is outside the pool |
| Routing.BindMovesExactly | pgcat/src/query_router.rs:547-560 | a fully recorded Bind moves the client to a shard exactly when all arguments hash to it, and leaves no placeholder |
| Scram.XorInto | pgcat/src/scram.rs:208-210 | the in-place loop is exclusive or |
| Scram.ComputeHi | pgcat/src/scram.rs:194-214 | the accumulating loop computes Hi of section 2.2 of RFC 5802, with an iteration count of 0 taken as 1 |
| Scram.ParseExact | pgcat/src/scram.rs:226-248 | a server-first-message is understood exactly when nonce and salt text hold no comma, "r=" or "s=" |
| Scram.ScramSha256.Update | pgcat/src/scram.rs:78-163 | the reply, the salted password and the auth message, or an error that changes nothing |
| Scram.ScramSha256.Finish | pgcat/src/scram.rs:166-191 | accepts exactly "v=" followed by an encoding of the server's signature |
| Scram.ProofOpens | pgcat/src/scram.rs:147-151 | the proof gives the server back a key with the stored hash |
| Scram.ExchangeExact | pgcat/src/scram.rs:78-163 | an honest server accepts the reply exactly when the joint nonce has no comma and no "r=" |
| Scram.FinishExact | pgcat/src/scram.rs:166-191 | of all signatures the client accepts exactly the server's |
| Scram.ExchangeCompletes | pgcat/src/scram.rs:78-191 | with a safe nonce the honest server accepts the reply, and against what the client has stored its own signature passes and no other does |
| Scram.OwnNonceExact | pgcat/src/scram.rs:44-57 | with a nonce of its own the pooler fails exactly when "r=" turns up in the joint nonce |
| Scram.OwnNonceCanFail | pgcat/src/scram.rs:44-57 | draws for which it fails |
| Sharding.Mix | pgcat/src/sharding.rs:86-112 | the assignments compute `Mixed` |
| Sharding.MixInverse | pgcat/src/sharding.rs:86-112 | `mix` loses nothing: an explicit inverse on all triples |
| Sharding.UnMixInverse | pgcat/src/sharding.rs:86-112 | and it is onto |
| Sharding.Final | pgcat/src/sharding.rs:115-131 | the assignments compute `Finished` |
| Sharding.FinalInverse | pgcat/src/sharding.rs:115-131 | `_final` has an explicit inverse on all triples |
| Sharding.UnFinalInverse | pgcat/src/sharding.rs:115-131 | and it is onto |
| Sharding.PgU32Hash | pgcat/src/sharding.rs:143-157 | the assignments compute `HashWord` |
| Sharding.CombineWithZero | pgcat/src/sharding.rs:134-140 | the only use of `combine` is an addition modulo 2^64 |
| Sharding.KeyWordIsLowHalf | pgcat/src/sharding.rs:56-61 | folding the high half in leaves the low 32 bits alone exactly for keys from -2^32 up to 2^32 |
| Sharding.IntKeysAgree | pgcat/src/sharding.rs:56-61 | an `int` key, positive or negative, goes where hashing its 32 bits directly sends it |
| Wire.Stream.ReadMessage | pgcat/src/messages.rs:509-562 | takes exactly the first whole message off the stream, fails, or panics exactly on a length below -1 |
| Wire.ReadingIsLossless | pgcat/src/messages.rs:509-562 | repeated reads lose and invent nothing, on any bytes |
| Wire.FramesRoundTrip | pgcat/src/messages.rs:509-562 | any run of encoded messages is split back into exactly those messages |
| Wire.ConcatInjective | pgcat/src/messages.rs:509-562 | different runs of messages have different bytes |
| Wire.SizeIsLength | pgcat/src/server.rs:618-645 | the size that the flush limits are compared with is the number of bytes in the buffer |
| Wire.SimpleQuery | pgcat/src/messages.rs:91-99 | the message it writes |
| Wire.CommandComplete | pgcat/src/messages.rs:467-474 | the message it writes |
| Wire.ServerParameterMessage | pgcat/src/messages.rs:564-579 | the message it writes |
| Wire.DataRow | pgcat/src/messages.rs:447-464 | the loop over columns writes the row body |
| Wire.RowRoundTrip | pgcat/src/messages.rs:447-464 | a row decodes to its columns exactly when it has fewer than 2^15 of them |
| Wire.ParseParams | pgcat/src/messages.rs:154-189 | the nested loops compute the tokens and the map, and each error |
| Wire.TokensRoundTrip | pgcat/src/messages.rs:157-172 | an encoded list of pairs comes back as its strings exactly when none is empty |
| Wire.PairUpLastWins | pgcat/src/messages.rs:177-186 | the map holds for every name its last value, and no other name |
| Wire.ParamsRoundTrip | pgcat/src/messages.rs:154-189 | non-empty NUL-free pairs are parsed to that map |
| Text.SignedRoundTrip | pgcat/src/query_router.rs:518-524 | every `i64` printed in decimal is read back |

## Left out

- COPY FROM STDIN in transaction mode: replies with a CopyInResponse are outside the reply grammar, because the tracked state then says idle in mid-copy.
- Statistics: client and server counters are not conserved by the code and are not modelled.
- The cached application_name against the server's value after DISCARD ALL.
- Session state other than SET variables and named prepared statements (LISTEN, temporary tables, set_config, advisory locks) is not counted as residue.
- The buffers of `Connection` and `Session` hold whole messages instead of bytes; `Wire` shows that the bytes determine the messages.
- Regular expressions, the SQL parser, Base64, SHA-1, SHA-256, HMAC, MD5 and saslprep are parameters; the laws assumed of them are in `Scram.Lawful`.
- Failover.ConnectionPool.Get: takes the shuffled and sorted candidates as an argument, any permutation of the matching servers; `Failover.LeastBusyIsServed` adds that they are sorted.
- Placement.FromConfig: takes the keys sorted by number as an argument instead of sorting them.
- Wire.Stream.ReadMessage: arithmetic wraps as in a release build; a debug build panics on a length of -1 too.
- Parameters.BoundPruningExact: the only-if half needs values for the other columns that meet the other tests together.
- Pruning.PruningExact: the only-if half is limited to tests that are independent of the key; `Pruning.ReversedTestIsUnseen` shows why.
- Router.QueryRouter.TryExecuteCommand: arithmetic wraps as in a release build; a debug build panics on a length word below 5 even where the search limit is at most five bytes.
- The shuffle and sort of candidates and the sort of shard keys are given by what they ensure, so their algorithms are not modelled.
- bb8, tokio and TLS: checkout is exclusive and a timeout is a stall; their internals are not modelled.
- Admin mode, mirrors, Prometheus, logging, signals, configuration parsing and validation, and the startup and authentication flow around SCRAM would add only easy members.
- row_description, error and notice encoders and the startup packet would add only easy members.
- Shard pruning does not model table aliases, common table expressions or outer joins; conditions of joins other than inner ones restrict nothing.
- An automatic_sharding_key that is not of the form table.column panics in the source and is not modelled.
- Lengths of 2^31 and more on the wire, and rows of 2^15 columns, appear only as the limits of the round trips.
- ServerObject.Server.Recv: a ReadyForQuery with an empty body panics in the source; the model treats it like an unknown status.
- The sample applications of the repository.
