# A verified model of the MIT-6.824 sources

This project models, in Dafny 4.11, the parts of the repository that carry its logic, and proves what they are for:

- the linearizability checker of `src/linearizability`: the search over the linked list of events, its cache, its bitset, and
  the way a key/value history is split and judged;
- the replicated key/value service of `src/kvraft` on top of the delivery code of `src/raft`: overlapping apply goroutines,
  duplicate requests, snapshots, crashes, and the retrying clerks;
- the parts of `src/raft` that hold as written: votes, the append handler, the fast back-up of a leader, and where they do not
  hold, exactly when;
- the MapReduce pipeline and the scheduler of `src/mapreduce`.

`dafny verify dfyconfig.toml` checks everything.

## How it is organised

| files | contents |
|---|---|
| `Common` | small shared notions |
| `Words`, `Bitset` | 64-bit words, the SWAR population count, bitsets as finite sets |
| `Nodes`, `Cache` | the doubly linked list with lift and unlift; the hash-bucketed cache |
| `Linearizability`, `Search`, `Checker` | what linearizable means, the search as a stack of levels, the loop of `checkSingle` |
| `Entries`, `Ties`, `Events` | from timed operations or events to the linked list, and back |
| `KvModel`, `Partition`, `Verdict` | the key/value model, locality, `CheckOperations` |
| `KvState`, `Replica`, `KvServer`, `Clerk` | the state as a function of the log; one server as a system of steps; the server and clerk objects |
| `Service`, `ServiceHistory`, `EndToEnd` | clerks and servers over one agreed log; what clients see; the checker's verdict on it |
| `Votes`, `TwoLeaders` | elections, and a run with two leaders in one term |
| `LogMatching`, `Replication` | the append handler, and runs of leaders and followers |
| `Consensus` | elections and logs as one system |
| `LostEntry`, `StaleRejection`, `StaleSuccess` | runs that go wrong: at a snapshot boundary, and by replies to messages of an earlier term |
| `Backup`, `Raft`, `CatchUp` | the back-up search, the handlers of a Raft server, the two together |
| `Strings`, `MapReduce`, `Scheduler` | string order and sorting, the pipeline, the scheduler |

Code that changes state is written as methods on classes and arrays, with the loops of the source; concurrent code is a system of
atomic steps (one step per locked section or channel hand-over), and its properties are proved for every run. Main results:

- `Checker.CheckSingle`: true exactly when some order of all operations respects real time and is accepted by the model.
- `Partition.Locality` and `Verdict.CheckOperations`: the verdict on the partitions is the verdict on the whole store.
- `ServiceHistory.RunsAreLinearizable`: at every moment of every run the clients' calls are linearizable.
- `Service.RunsAreSafe`: deliveries, state and snapshots of every server are those of one pass over the log, and no slice panics.
- `Votes.VotesAreUnique`, `Votes.CarefulRunsHaveOneLeader`, `TwoLeaders.TwoLeadersInOneTerm`: what elections guarantee and what not.
- `Consensus.CarefulRunsMatch`: with elections that compare terms, the whole system has one leader per term and Log Matching.
- `Consensus.VoteIsGrantedIff`: what the election restriction means for the logs, over every such run.
- `CatchUp.BringUpToDate`, `Replication.LogsMatch`, `Replication.StepMatchesIff`: the back-up with its bound, and Log Matching.
- `MapReduce.RunJob`, `Scheduler.SchedulerIsSafe`, `Scheduler.GoodWorkerFinishesAll`: the pipeline and its scheduler.

Hypotheses, where a result needs them, are in the `requires` clauses:

- the checker's `Equal` is a congruence for `Step` (`Congruent`), and every call precedes its return (`CallsFirst`, `Matched`);
- for the exact verdict, no return ties with a call (`ProperTimes`). For all histories with given times, this is exactly what the
  verdict needs (`Ties.VerdictIsSafeIffProper`) and what keeps the order (`Ties.OrderIsSafeIffProper`); a single history with a tie
  may still be judged rightly;
- for the service, committed entries never change (`Replica.CanCommit`, `Replica.CanRewrite`);
- for Log Matching, an atomic `Start`, and agreement of message and guard at a snapshot boundary (`Replication.Agreeing`;
  `Replication.StepMatchesIff` shows that this is exactly what is needed). One leader per term is a guard of `Replication` and a
  result of `Consensus`, which needs careful elections instead (`Votes.Careful`);
- for the back-up, logs that were never truncated (`Backup.Plain`).

Terms of the model: index 0 of a log is the sentinel, `agreed[k - 1]` is log entry `k`.

`P(x) == true` in a contract or invariant means no more than `P(x)`; it keeps the verifier from proving a large predicate conjunct
by conjunct.

## Where the code and its comments or intentions differ

- The comment on `node.match` says that a nil match marks a call; in the code the returns have a nil match. The model follows the code.
- Entries are sorted by time with an unstable sort, so a return and a call at the same time may be swapped, and a linearizable
  history may be rejected: `Ties.TieTurnsVerdict`, `Ties.VerdictIsSafeIffProper`.
- `KvModel` has no `PartitionEvent`, so `CheckEvents` judges a multi-key history as if it had one key: `Partition.TwoKeysNeedPartition`.
  All histories over a set of keys are judged rightly exactly when it has at most one key: `Partition.NoPartitionNeededIff`.
- Vote replies are counted without comparing terms, and the election timer may fire on a leader: `TwoLeaders.TwoLeadersInOneTerm`,
  `Votes.NewLeaderElectedIff`.
- At the snapshot boundary `AppendEntries` does not compare terms: it breaks Log Matching exactly when message and guard disagree
  (`LogMatching.BoundaryMatchesIff`) and shortens the log exactly when the message ends inside it (`LogMatching.BoundaryShortensIff`).
  Both happen in runs of the code, the second by a late message, even without any snapshot and to a committed entry:
  `LostEntry.MatchingBroken`, `LostEntry.CommittedEntryRemoved`.
- The follower's conflict search panics exactly when the comparison is at the first entry after the guard and both have the same term:
  `Backup.ConflictIndex`, and the run `LostEntry.SearchBelowGuard`.
- The leader's search panics exactly when its log has been cut before the entry it starts from since it sent the message:
  `Raft.Server.BackUp`, and the run `StaleRejection.SearchBeyondLog`.
- The leader counts a success by its role, not by the term of the message it answers, so a late reply can commit an entry that a
  minority holds: `StaleSuccess.CommitsUnheld`. The leader is sure to hold what a reply acknowledges exactly in the term of the
  message and in the next one (`StaleSuccess.AckedIsHeldIff`); that the follower keeps it is not sure either (`LostEntry`).
- The reduce phase reads a map file name per reduce task, which is out of range exactly when there are more reducers than files:
  `Scheduler.FilesInRangeIff`, `Scheduler.TwoReducersOneFile`.

## Model

| member | source | states |
|---|---|---|
| `Words.SetBit` | MIT-6.824/src/linearizability/bitset.go:27-31 | or-ing a shifted one into a word sets exactly that bit |
| `Words.ClearBit` | MIT-6.824/src/linearizability/bitset.go:33-37 | and-not with a shifted one clears exactly that bit |
| `Words.SameBits` | MIT-6.824/src/linearizability/bitset.go:64-74 | words with the same 64 bits are equal |
| `Words.PopWordCounts` | MIT-6.824/src/linearizability/bitset.go:47-51 | the SWAR sequence of masks, adds, multiply and shift gives the number of one bits of every word |
| `Bitset.New` | MIT-6.824/src/linearizability/bitset.go:8-15 | an empty set with room for the given number of positions |
| `Bitset.Clone` | MIT-6.824/src/linearizability/bitset.go:17-21 | a fresh array with the same words |
| `Bitset.Set` | MIT-6.824/src/linearizability/bitset.go:27-31 | adds one position to the set and no other, in place |
| `Bitset.Clear` | MIT-6.824/src/linearizability/bitset.go:33-37 | removes one position from the set and no other, in place |
| `Bitset.Contains` | MIT-6.824/src/linearizability/bitset.go:39-42 | membership in the set |
| `Bitset.Popcnt` | MIT-6.824/src/linearizability/bitset.go:44-54 | the cardinality of the set of positions |
| `Bitset.Hash` | MIT-6.824/src/linearizability/bitset.go:56-62 | a function of the words alone, so equal sets hash equally |
| `Bitset.Equals` | MIT-6.824/src/linearizability/bitset.go:64-74 | equality of length and contents |
| `Bitset.SameMembersSameWords` | MIT-6.824/src/linearizability/bitset.go:56-74 | arrays of the same length with the same members have the same words: one representation per set |
| `Nodes.InsertBefore` | MIT-6.824/src/linearizability/linearizability.go:59-70 | splices a node into the linked list before the mark, or returns it alone |
| `Nodes.Length` | MIT-6.824/src/linearizability/linearizability.go:72-79 | the number of nodes of the list |
| `Nodes.Lift` | MIT-6.824/src/linearizability/linearizability.go:147-155 | the list without the call and its return, also when they are adjacent or the return is last; the two keep their own pointers |
| `Nodes.Unlift` | MIT-6.824/src/linearizability/linearizability.go:157-165 | exactly undoes the lift: the list is again what it was |
| `Linearizability.SearchDecidesLinearizable` | MIT-6.824/src/linearizability/linearizability.go:167-214 | an order that respects real time and is accepted exists exactly when the exhaustive search over sets of placed operations finds one |
| `Linearizability.EqualStatesComplete` | MIT-6.824/src/linearizability/linearizability.go:133-140 | states related by a congruent Equal have the same completions |
| `Search.ScannedCallIsReady` | MIT-6.824/src/linearizability/linearizability.go:180-199 | a call reached in the scan before any return may be placed next |
| `Search.ReturnMeansStuck` | MIT-6.824/src/linearizability/linearizability.go:200-211 | when the scan reaches a return, no remaining operation can be placed first with success |
| `Search.PushKeepsSeen` | MIT-6.824/src/linearizability/linearizability.go:186-193 | after placing an operation, every cached configuration off the stack still has no completion |
| `Search.PopKeepsSeen` | MIT-6.824/src/linearizability/linearizability.go:201-210 | after backtracking, every cached configuration off the stack still has no completion |
| `Search.SeenBeforeFails` | MIT-6.824/src/linearizability/linearizability.go:186-196 | skipping a call whose configuration was seen loses no completion |
| `Search.CompletionGoesDown` | MIT-6.824/src/linearizability/linearizability.go:176-213 | what completes the top of the stack completes the search from the start |
| `Search.StepsTerminate` | MIT-6.824/src/linearizability/linearizability.go:176-212 | every iteration lowers a measure, for every history and without assumptions on Equal |
| `Search.LevelsReachable` | MIT-6.824/src/linearizability/linearizability.go:186-191 | every configuration on the stack is reached by an accepted order |
| `Search.PlacementsBounded` | MIT-6.824/src/linearizability/linearizability.go:184-193 | with a reflexive Equal at most as many operations are placed as there are reachable configurations |
| `Cache.CacheContains` | MIT-6.824/src/linearizability/linearizability.go:133-140 | true exactly when an equal configuration was cached: buckets hide nothing |
| `Cache.Insert` | MIT-6.824/src/linearizability/linearizability.go:187-188 | the cache then holds exactly the old configurations and the new one |
| `Checker.Linearize` | MIT-6.824/src/linearizability/linearizability.go:186-193 | one placing step keeps the loop invariant and lowers the measure |
| `Checker.Backtrack` | MIT-6.824/src/linearizability/linearizability.go:201-210 | one backtracking step keeps the loop invariant and lowers the measure |
| `Checker.TryCall` | MIT-6.824/src/linearizability/linearizability.go:180-199 | the branch for a call keeps the loop invariant: list, bitset, stack and cache agree |
| `Checker.Examine` | MIT-6.824/src/linearizability/linearizability.go:176-212 | one iteration of the loop, with its early exit, keeps the invariant or proves that there is no order |
| `Checker.CheckSingle` | MIT-6.824/src/linearizability/linearizability.go:167-214 | true if and only if the history of the list is linearizable; the configurations placed are reachable and, with a reflexive Equal, none is placed twice |
| `Entries.SortByTime` | MIT-6.824/src/linearizability/linearizability.go:23-35 | sorted by time with the same entries; nothing is said about ties |
| `Entries.MakeEntries` | MIT-6.824/src/linearizability/linearizability.go:37-49 | the calls and returns of all operations, numbered by position, sorted by time |
| `Entries.MakeLinkedEntries` | MIT-6.824/src/linearizability/linearizability.go:109-126 | a linked list of the entries in order, each call matched with the next return of its number |
| `Entries.PairedRepresents` | MIT-6.824/src/linearizability/linearizability.go:109-126 | the list of paired entries represents their history, so checkSingle's identifiers stay in bounds |
| `Entries.SortingKeepsPrecedence` | MIT-6.824/src/linearizability/linearizability.go:37-49 | however ties end, every result of the sort keeps in order all pairs that the times order |
| `Entries.SortingKeepsOrder` | MIT-6.824/src/linearizability/linearizability.go:37-49 | for proper times every result of the sort is paired and orders the same pairs of operations |
| `Entries.StricterLinearizable` | MIT-6.824/src/linearizability/linearizability.go:37-49 | what is linearizable under more precedence is linearizable under less, so an accepted history is linearizable whatever the ties |
| `Entries.SameOrderBothWays` | MIT-6.824/src/linearizability/linearizability.go:37-49 | histories that order the same pairs are linearizable together |
| `Ties.OrderIsSafeIffProper` | MIT-6.824/src/linearizability/linearizability.go:33-49 | for every history: all results of the sort keep the order if and only if calls precede their returns and no return ties with a call |
| `Ties.ReturnFirst` | MIT-6.824/src/linearizability/linearizability.go:33-49 | a return that does not come after a call, of the same or another operation, is before it in some result of the sort |
| `Ties.TieTurnsVerdict` | MIT-6.824/src/linearizability/linearizability.go:241-246 | for every tie of two operations: a history with the same times that is linearizable, and a result of the sort that is not |
| `Ties.VerdictIsSafeIffProper` | MIT-6.824/src/linearizability/linearizability.go:241-246 | for all times: every history with these times is judged rightly, whatever the sort does with ties, if and only if the times are proper |
| `Events.Renumber` | MIT-6.824/src/linearizability/linearizability.go:81-95 | the same events under dense numbers, equal exactly where the identifiers were |
| `Events.ConvertEntries` | MIT-6.824/src/linearizability/linearizability.go:97-107 | entry by entry the same kind, value and number |
| `Events.RenumberedPaired` | MIT-6.824/src/linearizability/linearizability.go:81-107 | renumbered events are paired entries with exactly two per number |
| `Events.EventsDecide` | MIT-6.824/src/linearizability/linearizability.go:272-313 | all ways of numbering the operations of the same events are linearizable together |
| `Events.CheckEvents` | MIT-6.824/src/linearizability/linearizability.go:272-313 | true if and only if the operations of the events, numbered in any way and with positions as times, are linearizable |
| `KvModel.StoreStepIsLocal` | MIT-6.824/src/linearizability/models.go:34-48 | a step of the store is KvModel's step on the value of its key and leaves all other keys |
| `KvModel.ProjectKey` | MIT-6.824/src/linearizability/models.go:17-48 | an accepted order of the whole history contains one of each key |
| `KvModel.HeadIsReady` | MIT-6.824/src/linearizability/models.go:17-48 | the head of the order of the key whose operation returns first of all can be placed next |
| `KvModel.MergeKeys` | MIT-6.824/src/linearizability/models.go:17-48 | orders of the single keys merge into one of everything |
| `Partition.Places` | MIT-6.824/src/linearizability/models.go:17-28 | where the operations of a key are in the history, in order |
| `Partition.EveryPlace` | MIT-6.824/src/linearizability/models.go:17-28 | no operation of a key is missing from its partition |
| `Partition.PartitionOrderIsKeyOrder` | MIT-6.824/src/linearizability/models.go:17-48 | an accepted order of a partition is one of the key's operations inside the whole history |
| `Partition.KeyOrderIsPartitionOrder` | MIT-6.824/src/linearizability/models.go:17-48 | and the other way round |
| `Partition.Locality` | MIT-6.824/src/linearizability/model.go:24-27 | the history is linearizable against the store if and only if every partition is against KvModel |
| `Partition.OneKeyNeedsNoPartition` | MIT-6.824/src/linearizability/linearizability.go:278-285 | a history of one key is judged rightly without partition |
| `Partition.TwoKeysNeedPartition` | MIT-6.824/src/linearizability/linearizability.go:278-285 | for any two keys, a history over them that is linearizable and judged not to be |
| `Partition.NoPartitionNeededIff` | MIT-6.824/src/linearizability/linearizability.go:278-285 | all histories over a set of keys are judged rightly without partition if and only if there is at most one key |
| `Verdict.GroupByKey` | MIT-6.824/src/linearizability/models.go:18-22 | a map from exactly the keys that occur to their operations in order |
| `Verdict.PartitionByKey` | MIT-6.824/src/linearizability/models.go:17-28 | one partition per key, in any order, each the restriction of the history |
| `Verdict.CheckHistory` | MIT-6.824/src/linearizability/linearizability.go:241-246 | for every model: an accepted history is linearizable; without ties the verdict is exact |
| `Verdict.CheckOperations` | MIT-6.824/src/linearizability/linearizability.go:235-270 | results taken in any order, early exit: an accepted history is linearizable against the store; without ties the verdict is exact |
| `KvState.AppliedIsHighest` | MIT-6.824/src/kvraft/server.go:255-266 | the table holds exactly the highest request of every client in the log |
| `KvState.AppliedAgain` | MIT-6.824/src/kvraft/server.go:255-258 | an entry delivered again changes nothing |
| `KvState.FreshIsNotDuplicate` | MIT-6.824/src/kvraft/server.go:84-90 | an entry takes effect exactly when its request is above all earlier ones of its client |
| `KvState.FreshIsFirstIff` | MIT-6.824/src/kvraft/server.go:84-90 | exactly the first occurrences take effect if and only if requests enter the log in issue order |
| `KvState.ExactlyOnce` | MIT-6.824/src/kvraft/server.go:255-267 | then the database is the fold over the first occurrences |
| `KvState.OutOfOrderLosesRequest` | MIT-6.824/src/kvraft/server.go:84-90 | out of issue order a request is lost |
| `KvState.ReplayConcat` | MIT-6.824/src/kvraft/server.go:242-281 | replaying in two parts is replaying the whole |
| `Replica.NeverPanics` | MIT-6.824/src/raft/raft.go:165-168 | in every reachable state the slices of setCommitIndex and ReplaceLogWithSnapshot are in bounds |
| `Replica.CommitOk` | MIT-6.824/src/raft/raft.go:161-187 | starting an applier keeps the delivery invariant |
| `Replica.DeliverOk` | MIT-6.824/src/raft/raft.go:171-176 | handing over a message keeps it: first deliveries without gaps |
| `Replica.RaiseOk` | MIT-6.824/src/raft/raft.go:179-183 | raising lastApplied keeps it: lastApplied trails the highest delivery by at most one |
| `Replica.ApplyNext` | MIT-6.824/src/kvraft/server.go:254-267 | a redelivered entry changes nothing, a first delivery moves the state on by one entry |
| `Replica.ProcessState` | MIT-6.824/src/kvraft/server.go:254-275 | applying keeps state, label and notifications exact although duplicates do not move the label |
| `Replica.InstallOk` | MIT-6.824/src/raft/raft.go:234-244 | truncating the log at a snapshot, also a late one, keeps everything |
| `Replica.InstalledCuts` | MIT-6.824/src/raft/raft.go:234-244 | the log then starts at the later index and ends where it ended; what stays keeps its index |
| `Replica.StepOk` | MIT-6.824/src/raft/raft.go:161-297 | every step of a server, crash included, keeps the invariant |
| `Replica.FirstDeliveriesAreTheLog` | MIT-6.824/src/raft/raft.go:161-187 | first deliveries are the log from the start index on, in order, each once |
| `Replica.ReceivedLikeOnePass` | MIT-6.824/src/kvraft/server.go:242-281 | applying everything in the order received equals one in-order pass |
| `Replica.SnapshotsAreExact` | MIT-6.824/src/kvraft/server.go:71-81 | a snapshot is the state after the prefix it is labelled with; restore and replay equals replaying everything |
| `KvServer.KvServer.constructor` | MIT-6.824/src/kvraft/server.go:219-238 | empty, or the restored snapshot |
| `KvServer.KvServer.InstallSnapshot` | MIT-6.824/src/kvraft/server.go:192-203 | the snapshot replaces the state, if there is one |
| `KvServer.KvServer.IsDuplicateRequest` | MIT-6.824/src/kvraft/server.go:84-90 | whether the table has the request or a later one |
| `KvServer.KvServer.TakeSnapshot` | MIT-6.824/src/kvraft/server.go:71-81 | the snapshot is the state of the server and of the prefix it is labelled with, although the label may lag |
| `KvServer.KvServer.ApplyMessage` | MIT-6.824/src/kvraft/server.go:251-275 | new state, label and notification of one message |
| `KvServer.KvServer.ApplyDelivered` | MIT-6.824/src/kvraft/server.go:242-281 | a delivered entry keeps state, label and notifications exact, and its channel has room |
| `KvServer.InOrderIsGapFree` | MIT-6.824/src/raft/raft.go:170-185 | in-order events are the gap-free deliveries that the delivery model produces |
| `KvServer.KvServer.Serve` | MIT-6.824/src/kvraft/server.go:242-281 | any events with entries in order, handlers registering in between: the state is that of one pass, the label fits it, a handler was told exactly if the entry at its index took effect after it registered |
| `KvServer.KvServer.Register` | MIT-6.824/src/kvraft/server.go:106-111 | a handler that registers is told about later entries only; an existing registration is kept |
| `KvServer.KvServer.FinishWaiting` | MIT-6.824/src/kvraft/server.go:112-136 | both ends of the wait: an answer without wrongLeader means the request was applied; a request applied at its index is never refused, also if its handler registered too late or another one took the notification or the registration |
| `KvServer.KvServer.Read` | MIT-6.824/src/kvraft/server.go:152-161 | the value of the key, empty if missing |
| `KvServer.NotifiedStaysApplied` | MIT-6.824/src/kvraft/server.go:269-275 | a notified request counts as applied from then on |
| `Clerk.Clerk.Call` | MIT-6.824/src/kvraft/client.go:42-99 | one request number for all attempts, one server after the other up to the first answer, which is returned; without an answer the call goes on |
| `Clerk.EveryServerTried` | MIT-6.824/src/kvraft/client.go:56-58 | as many failures as there are servers try every one of them |
| `Service.RequestIsInLog` | MIT-6.824/src/kvraft/client.go:42-99 | a client's request enters the log before its later ones |
| `Service.AppliedIsInLog` | MIT-6.824/src/kvraft/server.go:112-129 | a request that a server counts as applied is in the prefix it has applied |
| `Service.InvokeOk` | MIT-6.824/src/kvraft/client.go:42-58 | starting a call keeps the system invariant |
| `Service.AgreeOk` | MIT-6.824/src/kvraft/server.go:92-98 | any request, new, repeated or late, may enter the log |
| `Service.RespondOk` | MIT-6.824/src/kvraft/server.go:139-164 | an answer is what its server's prefix gives |
| `Service.ReturnOk` | MIT-6.824/src/kvraft/client.go:60-62 | finishing a call keeps the system invariant |
| `Service.RunsKeepInvariant` | MIT-6.824/src/kvraft/server.go:92-281 | the invariant holds all along every run |
| `Service.RunsAreSafe` | MIT-6.824/src/raft/raft.go:161-253 | along every run, on every server: no slice out of bounds in setCommitIndex or ReplaceLogWithSnapshot, lastApplied at most one behind, no gaps, exact state, lossless restart |
| `ServiceHistory.EntryEffect` | MIT-6.824/src/kvraft/server.go:255-267 | exactly the first entries of writes move the database |
| `ServiceHistory.PointAfterCall` | MIT-6.824/src/kvraft/client.go:42-99 | a call takes effect after the log it found when it was made |
| `ServiceHistory.ByPointRespectsTime` | MIT-6.824/src/kvraft/client.go:42-99 | ordering calls by where they take effect respects real time |
| `ServiceHistory.ThroughAccepted` | MIT-6.824/src/kvraft/server.go:139-179 | the store model accepts writes at their first entry and reads at their prefix, and reaches the replicated database |
| `ServiceHistory.CallsAreLinearizable` | MIT-6.824/src/kvraft/server.go:92-179 | in every state with the invariant the completed history is linearizable |
| `ServiceHistory.RunsAreLinearizable` | MIT-6.824/src/kvraft/server.go:92-281 | at every moment of every run the clients' calls are linearizable against a string map |
| `ServiceHistory.AnsweredExactlyOnce` | MIT-6.824/src/kvraft/server.go:84-137 | a call that returned is in the log and has taken effect exactly once |
| `ServiceHistory.ServersApplyOnce` | MIT-6.824/src/kvraft/server.go:255-267 | along every run the database and the snapshot of every server are the fold over the first occurrences of their prefix |
| `EndToEnd.CompletionIsProper` | MIT-6.824/src/linearizability/linearizability.go:37-49 | histories of the service meet the checker's conditions |
| `EndToEnd.CheckRun` | MIT-6.824/src/linearizability/linearizability.go:229-270 | CheckOperations accepts the history of every run |
| `Votes.StepKeepsInvariant` | MIT-6.824/src/raft/raft.go:325-361 | a vote is remembered while its term lasts, through crashes and stale votedFor |
| `Votes.StepKeepsWinners` | MIT-6.824/src/raft/raft.go:613-616 | a candidate that won its current term leads it |
| `Votes.OneMajorityPerTerm` | MIT-6.824/src/raft/raft.go:599-617 | two elections of a term cannot both have more than half |
| `Votes.VotesAreUnique` | MIT-6.824/src/raft/raft.go:57-69 | over every run: one candidate per server and term, one majority per term |
| `Votes.NewLeaderElectedIff` | MIT-6.824/src/raft/raft.go:613-616 | in every reachable state, a new leader has a majority for its own term exactly when the vote was counted in its term and no timer fired on a leader |
| `Votes.CarefulRunsHaveOneLeader` | MIT-6.824/src/raft/raft.go:586-629 | with both guards a term never has two leaders |
| `TwoLeaders.TwoLeadersInOneTerm` | MIT-6.824/src/raft/raft.go:613-616 | without them: a run of the code that ends with two leaders in one term |
| `Backup.ConflictIndex` | MIT-6.824/src/raft/raft.go:439-451 | the first entry of the conflict term after the guard; the panic, exactly when it happens |
| `Backup.NextIndex` | MIT-6.824/src/raft/raft.go:559-574 | after the leader's last entry of the conflict term, or where the follower says |
| `Backup.ResultsAreUnique` | MIT-6.824/src/raft/raft.go:439-451 | the two loops compute the functions of the exchange |
| `Backup.NextDecreases` | MIT-6.824/src/raft/raft.go:558-575 | every rejection lowers nextIndex and keeps it positive |
| `Backup.NothingSkipped` | MIT-6.824/src/raft/raft.go:558-575 | the leader passes over no entry on which the logs agree |
| `Backup.ConflictTermDecreases` | MIT-6.824/src/raft/raft.go:418-453 | after a conflict the follower accepts or the next conflict is in an earlier term |
| `Backup.RejectionsBounded` | MIT-6.824/src/raft/raft.go:418-575 | at most as many rejections as different terms in the follower's log, plus one |
| `Backup.Synchronise` | MIT-6.824/src/raft/raft.go:488-583 | repeated heartbeats end at an agreeing entry within that bound |
| `CatchUp.AgreedDelivery` | MIT-6.824/src/raft/raft.go:403-471 | after an agreeing entry, the sentinel included, the delivery leaves the leader's log as a prefix of the follower's |
| `CatchUp.BringUpToDate` | MIT-6.824/src/raft/raft.go:418-575 | under Log Matching, from any next index: at most one rejection per different follower term plus one, then the leader's log is a prefix of the follower's |
| `CatchUp.AcceptsIff` | MIT-6.824/src/raft/raft.go:403-471 | the handler accepts exactly when the exchange of the two logs does |
| `CatchUp.Heartbeat` | MIT-6.824/src/raft/raft.go:493-581 | the two handlers in sequence do one step of the exchange |
| `LogMatching.Mismatch` | MIT-6.824/src/raft/raft.go:455-464 | the first entry that the log lacks or holds with another term |
| `LogMatching.MismatchIs` | MIT-6.824/src/raft/raft.go:455-464 | it is the only such position |
| `LogMatching.NormalDelivery` | MIT-6.824/src/raft/raft.go:418-471 | the log stays or becomes the leader's; success exactly on agreement; after success it begins with the leader's log |
| `LogMatching.MatchingIsKept` | MIT-6.824/src/raft/raft.go:455-471 | entries that are all there never shorten the log |
| `LogMatching.BoundaryDelivery` | MIT-6.824/src/raft/raft.go:403-413 | what the boundary branch leaves |
| `LogMatching.BoundaryMatchesIff` | MIT-6.824/src/raft/raft.go:403-413 | the boundary branch keeps Log Matching if and only if message and guard agree |
| `LogMatching.BoundaryShortensIff` | MIT-6.824/src/raft/raft.go:403-413 | it shortens the log if and only if the message ends inside it |
| `Replication.StepKeepsInvariant` | MIT-6.824/src/raft/raft.go:382-471 | elections, Start, sends, deliveries in any order and again, commits and truncation keep every log explained by its terms' leaders, if the delivery agrees at the boundary |
| `Replication.StepKeepsOwnLogs` | MIT-6.824/src/raft/raft.go:386-396 | the term checks keep a leader's log its own while it leads |
| `Replication.StepKeepsTerms` | MIT-6.824/src/raft/raft.go:382-471 | along every log and message terms do not go down and none is above the server's or the message's |
| `Replication.StepMatchesIff` | MIT-6.824/src/raft/raft.go:403-413 | a step keeps Log Matching among all logs and messages if and only if it agrees at the boundary |
| `Replication.LogsMatch` | MIT-6.824/src/raft/raft.go:382-471 | over every run whose deliveries agree at the boundary, any two logs and messages in flight, also two messages, satisfy Log Matching |
| `Replication.SuccessIsTrue` | MIT-6.824/src/raft/raft.go:403-471 | a success beyond the snapshot, agreeing at the boundary, leaves a log that begins with the message's |
| `Replication.RecentlySentIsHeld` | MIT-6.824/src/raft/raft.go:527-534 | a leader holds everything it sent in its term and in the one before |
| `LostEntry.CommittedEntryRemoved` | MIT-6.824/src/raft/raft.go:403-413 | a run in which a late message removes a committed and acknowledged entry from a follower without a snapshot |
| `LostEntry.MatchingBroken` | MIT-6.824/src/raft/raft.go:403-413 | its continuation: the follower leads, and a message that meets a snapshot boundary breaks Log Matching |
| `LostEntry.SearchBelowGuard` | MIT-6.824/src/raft/raft.go:442-450 | further on: a message after which the conflict search of a server with a snapshot reads below the guard |
| `StaleRejection.SearchBeyondLog` | MIT-6.824/src/raft/raft.go:558-575 | a run in which a leader is refused with a conflict term, loses the entries it sent from, leads again, and the search for that term starts beyond its log |
| `StaleSuccess.CommitsUnheld` | MIT-6.824/src/raft/raft.go:527-551 | a run in which the leader may commit an entry that two of five servers hold, counting a reply to a message of an earlier term |
| `StaleSuccess.AckedIsHeldIff` | MIT-6.824/src/raft/raft.go:527-534 | in all runs agreeing at the boundary, a leader still holds what a reply to a message of an earlier or its own term acknowledges if and only if it counts the reply in that term or the next |
| `Consensus.NewLeaderNewTerm` | MIT-6.824/src/raft/raft.go:613-616 | with careful elections a new leader leads a term that has no log yet |
| `Consensus.RoleLeads` | MIT-6.824/src/raft/raft.go:798-819 | whoever is in the role of a leader is the leader of its term, so the role test of Start and of the heartbeats is enough |
| `Consensus.VoteKeepsInvariant` | MIT-6.824/src/raft/raft.go:586-629 | a careful step of an election, a crash included, keeps the elections and the logs of the system in agreement |
| `Consensus.LogKeepsInvariant` | MIT-6.824/src/raft/raft.go:382-471 | so does a step of replication that agrees at the boundary, also when it brings a higher term |
| `Consensus.UpToDateMeans` | MIT-6.824/src/raft/raft.go:344-353 | a candidate's log is found up to date exactly when it extends the voter's or has an entry of a later term than all of the voter's |
| `Consensus.VoteIsGrantedIff` | MIT-6.824/src/raft/raft.go:325-361 | over every run with both guards and agreement at the boundary: a vote is granted exactly when the term is not stale, no other candidate has it, and the candidate's log at the start of its election extends the voter's or has a later term |
| `Consensus.CarefulRunsMatch` | MIT-6.824/src/raft/raft.go:382-629 | over every run of elections, crashes and replication with both guards and agreement at the boundary: one leader per term, and Log Matching of all logs and messages |
| `Raft.Server.constructor` | MIT-6.824/src/raft/raft.go:842-869 | restart from persistent state: indices at the snapshot |
| `Raft.Server.ToFollower` | MIT-6.824/src/raft/raft.go:57-69 | clears the vote only when the role changes |
| `Raft.Server.RequestVote` | MIT-6.824/src/raft/raft.go:325-361 | new vote state and answer are those of the election model, with the comparison of logs that `Consensus.VoteIsGrantedIff` is about; a granted vote is recorded in the candidate's term |
| `Raft.Server.TimeOut` | MIT-6.824/src/raft/raft.go:586-605 | new term and own vote; the request describes an up-to-date log |
| `Raft.Server.VoteReply` | MIT-6.824/src/raft/raft.go:609-626 | counts, becomes leader above half, or follows a higher term; next and match indices are reset exactly when it becomes leader |
| `Raft.Server.BecomeLeader` | MIT-6.824/src/raft/raft.go:74-86 | next and match indices of all peers are reset |
| `Raft.Server.SetCommitIndex` | MIT-6.824/src/raft/raft.go:161-187 | commit index and slice are those of the delivery model, for every state it mirrors |
| `Raft.Server.RaiseLastApplied` | MIT-6.824/src/raft/raft.go:179-183 | lastApplied as in the delivery model |
| `Raft.Server.ReplaceLogWithSnapshot` | MIT-6.824/src/raft/raft.go:234-244 | log and guard as in the delivery model: cut to the later index, what stays keeps its index |
| `Raft.FindMismatch` | MIT-6.824/src/raft/raft.go:455-464 | the comparison loop finds the first mismatch or -1 |
| `Raft.Server.Merge` | MIT-6.824/src/raft/raft.go:455-471 | cut at the first mismatch, then the leader's entries |
| `Raft.Server.ReportConflict` | MIT-6.824/src/raft/raft.go:431-453 | the conflict term and its first entry |
| `Raft.Server.AppendToLog` | MIT-6.824/src/raft/raft.go:403-471 | log and success are those of the append model; what a rejection reports |
| `Raft.Server.FollowCommit` | MIT-6.824/src/raft/raft.go:473-482 | the commit index is at most the leader's and at most the end of the log, and equal to one of them; what that adds is handed to an applier |
| `Raft.Server.Follow` | MIT-6.824/src/raft/raft.go:398-485 | log, success, what a rejection reports; the commit index follows as far as the log goes in the normal branch only; entries to apply |
| `Raft.Server.AppendEntries` | MIT-6.824/src/raft/raft.go:382-485 | stale terms refused, higher ones followed; log, what a rejection reports, commit index, what is handed to an applier; log, term and commit index are those of a delivery in the run model |
| `Raft.HandledIsReceived` | MIT-6.824/src/raft/raft.go:403-482 | what the handler does to log and commit index is what a delivery does in the runs of Log Matching |
| `Raft.Server.Start` | MIT-6.824/src/raft/raft.go:798-819 | refused by a server that did not lead; otherwise the command is appended with the term read before the lock and own indices move to it |
| `Raft.Server.CountHolders` | MIT-6.824/src/raft/raft.go:539-544 | the number of servers whose match index is at least the entry's |
| `Raft.Server.AdvanceCommit` | MIT-6.824/src/raft/raft.go:536-551 | a new commit index has a set of more than half of the servers with match indices at least that high, and no later entry has one |
| `Raft.MajorityMayCommit` | MIT-6.824/src/raft/raft.go:536-551 | if match indices come from replies, every such commit is one that the run model allows |
| `Raft.ReplyBacks` | MIT-6.824/src/raft/raft.go:530-534 | a successful reply keeps match indices backed by acknowledgements |
| `Raft.Server.BackUp` | MIT-6.824/src/raft/raft.go:558-575 | nextIndex of the one server goes where the back-up search says; the panic when the log was cut since the send, exactly when it happens |
| `Raft.Server.AppendReplied` | MIT-6.824/src/raft/raft.go:525-580 | the four cases of a reply: the match index of this server and no other, commit by a set of more than half and none later, what that hands to an applier, both kinds of rejection, the panic |
| `Strings.BeforeIsTotal` | MIT-6.824/src/mapreduce/common_reduce.go:79 | the string order is total and irreflexive |
| `Strings.BeforeIsLexicographic` | MIT-6.824/src/mapreduce/common_reduce.go:79 | a string is before another exactly when, up to some place, they are equal and there it ends or has the smaller character |
| `Strings.BeforeIsTransitive` | MIT-6.824/src/mapreduce/common_reduce.go:79 | and transitive |
| `Strings.SortedKeys` | MIT-6.824/src/mapreduce/common_reduce.go:75-79 | exactly the keys of the map, ascending |
| `Strings.AscendingIsUnique` | MIT-6.824/src/mapreduce/common_reduce.go:75-79 | a set of keys has one ascending list |
| `MapReduce.DoMap` | MIT-6.824/src/mapreduce/common_map.go:61-84 | one file per reducer with its pairs in emission order |
| `MapReduce.ValuesOfBin` | MIT-6.824/src/mapreduce/common_map.go:77-83 | the values of a key stay together and in order, in one bin |
| `MapReduce.ValuesByPlace` | MIT-6.824/src/mapreduce/common_reduce.go:57-73 | the values of a key are those at its positions, one for each and in order |
| `MapReduce.EmittedInOrder` | MIT-6.824/src/mapreduce/master.go:67-70 | what a task emits comes after everything of earlier tasks and before everything of later ones |
| `MapReduce.DoReduce` | MIT-6.824/src/mapreduce/common_reduce.go:55-90 | every key of the files once, sorted, with the reduction of all its values |
| `MapReduce.ValuesForReducer` | MIT-6.824/src/mapreduce/common_reduce.go:57-73 | a reducer sees all values of its keys in task and emission order, and nothing else |
| `MapReduce.ReducersShareNoKey` | MIT-6.824/src/mapreduce/master_splitmerge.go:17-34 | merge never overwrites a key |
| `MapReduce.Merge` | MIT-6.824/src/mapreduce/master_splitmerge.go:14-51 | the reducers' outputs become one sorted grouping of everything emitted |
| `MapReduce.MapPhase` | MIT-6.824/src/mapreduce/master.go:67-70 | all map tasks |
| `MapReduce.ReducePhase` | MIT-6.824/src/mapreduce/master.go:71-74 | all reduce tasks |
| `MapReduce.RunJob` | MIT-6.824/src/mapreduce/master.go:132-150 | the result is the grouping of everything the mappers emit |
| `MapReduce.GroupedIsUnique` | MIT-6.824/src/mapreduce/master_splitmerge.go:35-48 | there is only one such result |
| `MapReduce.SameForAnyReducers` | MIT-6.824/src/mapreduce/master.go:60-80 | it does not depend on the number of reducers or the hash |
| `Scheduler.FilesInRangeIff` | MIT-6.824/src/mapreduce/schedule.go:41-47 | no task reads beyond the list of files if and only if a reduce phase has no more reducers than files |
| `Scheduler.TwoReducersOneFile` | MIT-6.824/src/mapreduce/schedule.go:41-47 | one file and two reducers: the second reduce task reads beyond the files |
| `Scheduler.StepKeepsWorkers` | MIT-6.824/src/mapreduce/schedule.go:36-58 | every worker is queued, held by one task or dropped |
| `Scheduler.StepKeepsCounts` | MIT-6.824/src/mapreduce/schedule.go:36-58 | the wait group counts the goroutines not gone, every call is accounted for, and schedule has returned only with the counter at zero |
| `Scheduler.PastCallSucceeded` | MIT-6.824/src/mapreduce/schedule.go:48-56 | a goroutine past its loop has had a successful call |
| `Scheduler.FailureMeansAnother` | MIT-6.824/src/mapreduce/schedule.go:48-56 | after a failed call the task waits for another worker, and the worker is never taken again |
| `Scheduler.DroppedIffFailed` | MIT-6.824/src/mapreduce/schedule.go:48-56 | exactly the workers on which a call failed are gone |
| `Scheduler.SchedulerIsSafe` | MIT-6.824/src/mapreduce/schedule.go:36-58 | no worker is called twice at once; calls are at most tasks plus registrations; schedule has returned only after every task was started and had a call that succeeded, exactly one |
| `Scheduler.StuckMeansNoWorkers` | MIT-6.824/src/mapreduce/schedule.go:48-58 | where only a registration can go on, schedule has returned or every worker has been dropped |
| `Scheduler.RunsAreBounded` | MIT-6.824/src/mapreduce/schedule.go:36-58 | a run has at most four steps per task, three per registration, and the return |
| `Scheduler.GoodWorkerFinishesAll` | MIT-6.824/src/mapreduce/schedule.go:36-58 | a run that cannot go on, with a registered worker on which no call failed, has returned with exactly one successful call for every task |

## Left out

- The `kill` flag and the timeouts of the checker, and empty histories of `CheckOperations`, which wait for no result.
- `Verdict.CheckOperations`: the goroutines are taken one after the other in any order; that they run in parallel on separate lists is not modelled. Operations whose return is not after their call are excluded.
- `Verdict.CheckHistory`: operations whose return is not after their call are excluded; the source takes such a call for a return.
- `Clerk.Clerk.Call`: the model is given how the attempts end; that an answer comes at all is not claimed.
- Raft's Election Safety, Leader Completeness and State Machine Safety as unconditional theorems; the code does not have them, and the service takes agreement on committed entries as a hypothesis.
- `Raft.Server.AppendEntries`: locks and timers are not modelled; the handler is one atomic step.
- `Replication.StepKeepsInvariant`: deliveries that disagree with the guard are excluded; `Replication.StepMatchesIff` shows that exactly these break Log Matching.
- `Replication.LogsMatch`: the same exclusion, over whole runs; `LostEntry.MatchingBroken` is a run with such a delivery.
- `InstallSnapshot` between servers and its message to the key/value server.
- `syncSnapshotWith` and the sending side of heartbeats.
- Encoding and persistence as bytes (`labgob`, `persister`); what is persisted is kept as values.
- The network of `labrpc`: messages are delivered at any time, in any order or never.
- `KvServer.KvServer.ApplyMessage`: a notification to a full channel, on which the source would block, is excluded by the precondition; `KvServer.KvServer.ApplyDelivered` shows that it does not arise.
- `Events.CheckEvents`: event lists in which a call has no return or an identifier is used again are excluded; the source takes such a call for a return.
- `MapReduce.Merge`: the text format of the result file is not modelled, and files are sequences rather than files on disk.
- The FNV hash, which is any function to the non-negative integers.
- `Strings.SortedKeys`: sorting is by insertion; the source's library sort is not modelled.
- `Entries.SortByTime`: sorting is by insertion; every result of an unstable sort is covered by the lemmas, which use only its contract.
- Parallelism inside a worker, RPC servers and shutdown of the MapReduce master.
- `shardmaster` and `shardkv`, which are stubs, and all test harnesses.
