# raft-kv-service, modelled and proved in Dafny

A model of the hard parts of a replicated key-value service written in Go, and proofs about it: the Raft
node and a whole cluster of them (`raft/raft.go`), the segmented write-ahead log (`wal/wal.go`), the apply
loop and read path of the server (`server/server.go`), snapshot files (`persister/snapshotter.go`), and the
clerk's response parser with its codecs (`server/client.go`, `proxy/response.go`, `proxy/body_pack.go`).
`dafny verify dfyconfig.toml` checks all of it.

## How the parts fit together

**Raft.** `RaftNode` holds the handlers as functions from a node to a node; the log is kept whole and `snap`
marks how far it has been trimmed. `RaftServer.Server` is the imperative node: a trimmed log, mutable fields,
and loops. Each of its methods is proved to do what the function of the same handler does to its `View()`.
`Cluster` is a state machine over those functions: any number of nodes, a network that loses, repeats and
reorders messages, timeouts at any time, crashes that reload the saved state, and history recorded on the
side. Every lock section of the code is one step, so the vote check and the vote count are separate events, and so
are installing a snapshot and saving the state after it.
`ClusterInvariant` states the invariant; `ClusterQuiet`, `ClusterVotes` and `ClusterLogs` show that every step
keeps it; `ClusterSafety` states what follows for all runs. `Voting` proves the two election theorems on their
own, since they hold under weaker rules, and when exactly a leader begins. `Electable` shows the other side, that
votes are to be had: the comparison of logs is a total order, so every majority can elect one of its members;
`Progress` takes it on from there to a committed command.
`Demotion` says what a term other than its own does to a node, over all six kinds of message. `Images` follows the
snapshot images through whole runs and joins them with the service. `ReadIndex` adds reads, and `Probes` what a leader's next indices mean.
`Commands` relates log indices to requests.

The code departs from the protocol in several places, so a run takes a `Rules` value: the number of nodes,
whether a vote is rechecked before it is counted, and whether a follower commits up to the last new entry.
`Sound` rules are an odd number of nodes with both checks, which is what the comments ask for; the code as
written has neither check. A run may also take steps the code never takes, such as a request from any index;
that only makes the safety theorems stronger. For runs that show a harm it would not do, so `Scenarios` says
which steps the code takes (`CodeStep`: a leader does not time out, a request starts at the peer's next index
and carries everything after it, a snapshot goes out only below the log, a read's heartbeats are empty and need
every peer's next index in the log) and builds its runs, for clusters of any size, from such steps alone. With it
`Departures`, `LogMatches` and `StaleReads` give, for each departure, a run that shows the harm and the exact
condition under which the code does what was intended. Their exact theorems take a flag `coded` and hold with
it, over the runs of the code, and without it, over all runs.

**Write-ahead log.** `WalFrames` is the entry format, `WalDisk` a directory of named files with the operations
the log performs on it, `WalNames` the names. `WalLayout` says what a directory stands for: runs of payloads,
one run per segment file. `WalLog.Log` is the log itself, with lazily loaded buffers, a cache that may evict
any segment but the one just inserted, and both truncations; its invariant includes that the tail is never
cached, that no segment but the tail is empty, and that every loaded buffer equals its file. `WalRuns` puts
the methods together over whole runs. `WalCrash` cuts a truncation after any disk operation, and the
recoveries after it anywhere; `WalRestart` opens what is then left.

**Server.** `KvMachine` is the state machine with its table of last responses, and `KvValues` what it holds and
answers, told from the positions of the requests in the log: the last Put and the Appends after it.
`KvServer.KVServer` is the apply loop with the read queue, and `KvReplay` what a server holds after any mixture of commands, repeats, snapshots and restarts. The
flag `always` says whether every execution is recorded in the table, as duplicate suppression needs; the code
records only what the server started itself in the entry's term.

**Clerk.** `WireFormat` is the response header and body. `Clerk.Receiver` is the 2048-byte receive buffer with
the loop that cuts messages out of it and shifts the rest to the front.

The protocol is described in D. Ongaro and J. Ousterhout, "In Search of an Understandable Consensus Algorithm
(Extended Version)"; the names of the safety properties are those of its section 5.

## Where the code and its intent differ

| What | Shown by |
|---|---|
| `len(peers)/2` leaves out the node itself, so the count is a strict majority only for an odd number of nodes | `Departures.ElectionSafetyExactly`, `Departures.CommitsSafeExactly`, `LocalRules.CommitLoopExactly` |
| with two nodes a candidate already passes the count and never becomes leader | `Departures.PairNeverLeads` |
| a vote is counted in a later lock section than its term check | `Departures.StaleVoteUnsafe`, `Departures.StaleVoteCommits`, `Departures.RecheckAgreesExactly` |
| a follower commits the larger of the leader's commit index and its own last index; the comment says the smaller of the leader's and the last new entry | `Departures.CommitRuleUnsafe`, `Departures.CommitRuleAgreesExactly` |
| the check at the previous index is skipped where that is the commit index, which is right only if what is committed is right | `LogMatches.CommitRuleMismatch`, `LogMatches.LogsMatchExactly` |
| a read samples the commit index of a leader that may have committed nothing in its own term, and so may not know what its predecessors committed | `StaleReads.StaleUnsettled`, `StaleReads.FreshExactly` |
| the commit index of a read and the heartbeats that confirm it are taken in separate steps, perhaps in different terms | `StaleReads.StaleAcrossTerms`, `StaleReads.FreshExactly` |
| the table a read waits in is keyed by request number alone and shared with writes, so a read may be answered unsampled | `KvServer.SampledExactly`, `KvServer.WaitsExactly`, `KvReplay.SharedNumberServes` |
| the heartbeats of a read take the term at the next index without looking at the snapshot, which is outside the trimmed log when that index is not above the snapshot's | `Probes.ProbesWithin` bounds the other side; `Scenarios.CodeStep` takes such heartbeats for no step of the code |
| a conflict hint does not move the probe when the probed entry is of the leader's own term | `BackOff.ConflictLowersExactly`, `BackOff.SettlesExactly` |
| a refusal below the follower's snapshot raises the probe | `BackOff.BelowSnapshotRaises` |
| a response enters the duplicate table only where the request was started in the same term | `KvReplay.RecordingAgreesExactly`, `KvReplay.FollowerRepeats` |
| a command can overtake a snapshot, which is then dropped | `KvReplay.FaithfulExactly` |
| a snapshot that cannot be decoded counts as applied all the same | `KvReplay.UnreadableExactly` |
| a snapshot that replaces the log puts its last entry one index too high, above a slot without an entry | `LocalRules.GapRepairedExactly` |
| the reset loop of a new leader ends only because ids are not negative | `LocalRules.ResetEndsExactly` |
| the write path of the clerk keeps a view of its buffer in place of a copy | `Clerk.ViewSurvivesExactly` |

## Model

| member | source | states |
|---|---|---|
| `Quorums.QuorumsMeet` | raft/raft.go:1046 | with an odd number of nodes any two sets that pass the counting rule share a member |
| `Quorums.MeetExactlyWhenOdd` | raft/raft.go:1126-1128 | any two passing sets share a member exactly when the number of nodes is odd |
| `ClusterInvariant.LogMatching` | raft/raft.go:494-519 | logs built from leaders' logs that have the same term at an index agree up to it |
| `ClusterInvariant.LeaderCompleteness` | raft/raft.go:606-628 | an entry committed in a term is in the log of every leader of a later term |
| `ClusterVotes.NoOtherWinner` | raft/raft.go:1035-1062 | a candidate whose votes pass the count stands in a term that has no winner yet |
| `ClusterLogs.CheckedPrev` | raft/raft.go:494-519 | a request that passes the check at its previous index agrees with the receiver up to there, also through the shortcut for the commit index |
| `ClusterLogs.MergeWithLeader` | raft/raft.go:530-546 | merging a slice of a leader's log keeps all agreement with that leader and yields the old log or the leader's prefix |
| `ClusterQuiet.CrashStep` | persister/persister.go:203-226 | a crash that loses everything but the saved term, vote, commit index, snapshot and log keeps the invariant |
| `ClusterSafety.Step` | raft/raft.go:360-1100 | every event keeps the whole invariant and forgets no election, commit or sample |
| `ClusterSafety.RunInv` | raft/raft.go:360-1100 | the invariant holds after every run from the initial state |
| `Voting.OneVotePerTerm` | raft/raft.go:376-403 | for every size and every variant of the rules, over crashes and unsaved term changes, a node never grants its vote to two candidates in one term |
| `Voting.ElectionSafety` | raft/raft.go:1001-1068 | with an odd number of nodes and votes rechecked, no run has two different leaders of one term, at any two moments |
| `ClusterSafety.LogsMatch` | raft/raft.go:494-546 | in every run, logs with the same term at an index are equal up to that index |
| `ClusterSafety.StateMachineSafety` | raft/raft.go:530-559 | what one node has committed at any moment equals, index by index, what any node has committed at any later moment |
| `ClusterSafety.LaterLeadersHave` | raft/raft.go:385-403 | everything a node has committed is in the log of every leader of its term or a later one |
| `Voting.LeaderBeginsExactly` | raft/raft.go:1035-1062 | in every run a node that does not lead begins to lead exactly at a vote that is still counted, in time, for a candidate, and brings its count past half of its peers |
| `Electable.GrantedExactly` | raft/raft.go:360-410 | a vote is granted exactly to a log at least as good, in a new term or in the current one to the node that has the vote or if nobody has it; then the voter is a follower in that term with that vote saved, and whatever the answer it names the voter's term |
| `Electable.VoteOrder` | raft/raft.go:385-403 | a node that stands with log x is granted the vote of every node with log y that is not ahead of it exactly when x has the later last term, or the same and is no shorter |
| `Electable.VotesTotal` | raft/raft.go:385-403 | of any two logs, one wins the vote of a node with the other |
| `Electable.VotesTransitive` | raft/raft.go:385-403 | winning votes carries over from log to log |
| `Electable.SomeoneIsGranted` | raft/raft.go:1070-1100 | in every run, under every variant, every group of nodes has a member whose next request for votes is granted by all other members not ahead of it in term |
| `Electable.MajorityElects` | raft/raft.go:1001-1100 | with three nodes or more, every run of the code can go on, for every majority, to a member of it leading, while the other nodes do nothing and no log changes; and unless all of them lead already, in a term above all terms so far |
| `Dates.RunDated` | raft/raft.go:464-561 | in every run, under every variant, no entry of a log or a request is from a later term than its node has saved, or than the request's |
| `Progress.Share` | raft/raft.go:641-671 | a new leader can bring any peer that has trimmed nothing up to its last entry, however far their logs are apart, and then knows it |
| `Progress.MajorityCommits` | raft/raft.go:360-1100 | with three nodes or more, under every variant, every run of the code can go on, for every majority that has trimmed nothing and of which not all lead, to a member of it having committed any given command in a new term, with a majority holding the entry and the other nodes doing nothing |
| `Demotion.HigherTermDemotes` | raft/raft.go:360-793 | in every run, under every variant, handling a message of a higher term, answers to a question of the current term, leaves a follower in exactly that term with no vote but one it has just granted; log, commit and snapshot index change only as the request itself has them change, and not at all with an answer or a vote request |
| `Demotion.StaleChangesNothing` | raft/raft.go:360-674 | in every run a request of a lower term, or an answer to a question of another term, leaves the node as it is |
| `Demotion.DeposedLearns` | raft/raft.go:633-640 | a leader whose append request reaches a node of a later term is a follower of that term once it has the answer |
| `Demotion.CandidateLearns` | raft/raft.go:1012-1024 | so is a candidate, and no vote is passed on |
| `Demotion.SenderLearns` | raft/raft.go:780-790 | so is the sender of a snapshot, and the new term is saved |
| `Demotion.TermsMove` | raft/raft.go:360-1100 | in every run a node's next term is one more when it stands for election, the saved one after a crash, the message's when that is higher and current, and otherwise the same |
| `Images.SnapMoves` | raft/raft.go:333-358 | a snapshot index moves exactly to the index of an accepted call, of a snapshot taken over, or of the one reloaded |
| `Images.ImageIsOwn` | raft/raft.go:676-739 | in every run the image a node goes by, taken, sent or reloaded, is that of its own log up to its snapshot index |
| `Images.TrimmingLosesNothing` | raft/raft.go:333-358 | in every run, at every index from the snapshot on, image and stored entries replay to the state machine of the whole log |
| `Images.ServiceImage` | server/server.go:272-300 | what the service holds once it has been fed a node's log up to an index is the image at that index |
| `ReadIndex.NoLaterWinner` | raft/raft.go:808-843 | a quorum confirming in the term of the sample or the next rules out that a later term had a winner when the sample was taken |
| `ReadIndex.SampleCoversCommits` | raft/raft.go:162-172 | with a commit of its own term, the sampled index then covers every commit of that moment |
| `ReadIndex.ReadReflectsCommitted` | server/server.go:137-206 | a read by a leader with a commit of its own term, confirmed at most one term after its sample, is served from a log that holds, unchanged, every entry any node had committed at the sample |
| `StaleReads.StaleUnsettled` | server/server.go:140-157 | for every odd size from three on, a run of the code where a new leader samples, is confirmed in the same term, and serves a read that misses an entry committed before |
| `StaleReads.StaleAcrossTerms` | server/server.go:140-157 | for every odd size from three on, a run of the code where a leader with a commit of its own term samples, its heartbeats confirm a term two later, and the read misses an entry committed before the sample |
| `StaleReads.FreshExactly` | server/server.go:140-157 | reads confirmed at most d terms after their sample are fresh, in all runs and in all runs of the code, exactly when they are limited to leaders with a commit of their own term and d is at most one, or the cluster is a single node |
| `Probes.ProbesWithin` | raft/raft.go:651-663 | in every run a leader's next index for any peer is at most one past its log, what it knows the peer to hold is in its log, and so is its commit index |
| `Probes.LeaderKnows` | raft/raft.go:494-519 | in every run a leader's terms do not decrease, and it agrees with all that a peer not ahead of it has committed |
| `Probes.ProbingInRuns` | raft/raft.go:641-671 | for every leader and peer of every run, the condition of `BackOff.SettlesExactly` decides whether probing settles |
| `Commands.RequestsOfRun` | server/server.go:232-238 | in every run under every variant of the rules, entry i of a log carries a command, and it is the log's i-th request |
| `LogMatches.EvenMismatch` | raft/raft.go:1046 | from four nodes on, an even cluster has a run of the code that breaks log matching |
| `LogMatches.StaleVoteMismatch` | raft/raft.go:1035-1042 | so has every odd size from three on without the recheck |
| `LogMatches.CommitRuleMismatch` | raft/raft.go:506-508 | so has every size from three on with the larger-of rule: a request passes over a wrongly committed entry |
| `LogMatches.LogsMatchExactly` | raft/raft.go:494-559 | for every size and every variant, log matching holds in all runs, and in all runs of the code, exactly with at most two nodes, or an odd number and both checks |
| `Departures.EvenSplits` | raft/raft.go:1046 | from four nodes on, an even cluster elects two leaders in one term, in a run of the code |
| `Departures.PairNeverLeads` | raft/raft.go:1035-1068 | under every variant of the rules, a cluster of one or two nodes never has a leader |
| `Departures.StaleVoteUnsafe` | raft/raft.go:1012-1042 | without the recheck every odd size from three on has a run of the code with two leaders of one term |
| `Departures.ElectionSafetyExactly` | raft/raft.go:1035-1068 | for every size and every variant, election safety holds in all runs, and in all runs of the code, exactly with at most two nodes, or an odd number and votes rechecked |
| `Departures.RecheckAgreesExactly` | raft/raft.go:1035-1042 | counting without the recheck agrees with counting with it exactly when the vote is for the current candidacy or the count has passed |
| `Departures.CommitRuleUnsafe` | raft/raft.go:556 | with the larger-of rule, every size from three on has a run of the code in which two nodes commit different entries at one index |
| `Departures.EvenCommits` | raft/raft.go:621 | so has every even size from four on, under every variant |
| `Departures.StaleVoteCommits` | raft/raft.go:1035-1042 | so has every odd size from three on without the recheck |
| `Departures.PairNeverCommits` | raft/raft.go:606-628 | with one or two nodes nothing is ever committed |
| `Departures.CommitsSafeExactly` | raft/raft.go:464-561 | for every size and every variant, no two nodes at any two moments of a run, or of a run of the code, commit different entries at one index exactly with at most two nodes, or an odd number and both checks |
| `Departures.CommitRuleAgreesExactly` | raft/raft.go:553-559 | the rule as written and the rule in the comment give the same result exactly when the request is refused, brings nothing to commit, or the leader's commit index is the last entry sent and nothing stays after it in the receiver's log |
| `Departures.GuardedRunAgrees` | raft/raft.go:464-561 | runs of the code as written in which every step meets its guard are runs of the intended rules |
| `Departures.GuardedRunsSafe` | raft/raft.go:464-561 | in such runs no two nodes, at any two moments, commit different entries at one index |
| `RaftNode.CommitSearchOk` | raft/raft.go:606-628 | the downward search never goes below the commit index, and stops only on an index that passes the count |
| `RaftNode.CommitSearchGreatest` | raft/raft.go:606-628 | every index above the one found fails the count |
| `LocalRules.OddCommits` | raft/raft.go:606-628 | for odd sizes from three on, the loop finds the greatest index of the current term held by a strict majority of all nodes, or changes nothing |
| `LocalRules.OtherSizesMiscount` | raft/raft.go:621 | for even sizes, and for one node, the loop does not |
| `LocalRules.CommitLoopExactly` | raft/raft.go:598-628 | the loop commits by strict majority exactly for odd sizes from three on |
| `LocalRules.MergeKeeps` | raft/raft.go:530-546 | the prefix stays, terms match at all sent positions, and entries go only from a real term conflict on |
| `LocalRules.MergeAgrees` | raft/raft.go:530-546 | after merging a slice of a leader's log, the terms agree with that log to the end of the slice |
| `LocalRules.HandleAppendKeeps` | raft/raft.go:464-561 | whatever the receiver's state, the handler removes nothing that agrees with the log a request was cut from |
| `LocalRules.HandleAppendAgrees` | raft/raft.go:464-561 | a receiver that agrees with that log up to the previous index accepts the request and then agrees to its end |
| `LocalRules.AcceptedNeverRemoved` | raft/raft.go:464-561 | any list of requests cut from one log, repeated and reordered, removes nothing that agrees with it |
| `LocalRules.SavedSurvives` | persister/persister.go:203-226 | what has just been saved is all there after a restart |
| `LocalRules.AcceptedSurvives` | raft/raft.go:530-561 | entries that a node has told the leader it holds survive a crash, with its term and vote |
| `LocalRules.SubmittedSurvives` | raft/raft.go:955-980 | so does a command that a leader has taken |
| `LocalRules.SnapshotMakesFollower` | raft/raft.go:676-694 | a snapshot request of the node's term or a later one makes it a follower in that term, with snapshot and commit index at the snapshot's exactly if it is taken over; one of a lower term changes nothing |
| `LocalRules.NewLeaderIndices` | raft/raft.go:1046-1058 | a new leader knows of each peer what its snapshot holds, starts after its own log, and has nothing else changed |
| `LocalRules.SuccessRaises` | raft/raft.go:590-606 | an accepted request raises what the leader knows of that peer to the last entry sent, never lowers it, and goes on from the next; nothing is changed for other peers |
| `LocalRules.CommitTravels` | raft/raft.go:553-559 | an accepted request brings the leader's commit index as far as it reaches, under either commit rule |
| `LocalRules.SnapshotAnswerRaises` | raft/raft.go:780-793 | after an answer to a snapshot the next request to that peer starts above the snapshot and not below where it would have, and nothing else changes |
| `LocalRules.GapRepairedExactly` | raft/raft.go:720-722 | after a snapshot has replaced the log, the leader's next request is accepted, and repairs the log exactly when the first entry after the snapshot differs in term from its last or equals it; otherwise that last entry takes the next one's place and is committed there |
| `LocalRules.ResetEndsExactly` | raft/raft.go:1052-1058 | over maps with any integer keys, the loop ends exactly when no key is negative, and then every key present has been reset |
| `BackOff.MissingLowers` | raft/raft.go:496-504 | a refusal for a missing entry lowers the probe |
| `BackOff.ConflictLowersExactly` | raft/raft.go:505-519 | a conflict refusal never raises the probe, and lowers it exactly when the probed entry is older than the leader's term and lies above the follower's snapshot |
| `BackOff.ConflictSkipsRun` | raft/raft.go:653-671 | a lowered probe passes over the whole run of the follower's conflicting term and no more, as far as the snapshots allow |
| `BackOff.BelowSnapshotRaises` | raft/raft.go:641-671 | a refusal below the follower's snapshot moves the probe up to it, unless the term of the leader's snapshot exceeds its index: then down to the leader's snapshot |
| `BackOff.AcceptedMatches` | raft/raft.go:494-519 | an accepted probe is one where the terms are the same |
| `BackOff.ProbingSettles` | raft/raft.go:641-671 | from any probe below the leader's own entries, probing ends after at most as many refusals as the probe's index, in an acceptance where the terms match or at the leader's snapshot |
| `BackOff.SettlesExactly` | raft/raft.go:641-671 | from any probe at all, probing ends exactly when it does not land on a conflict with an entry of the leader's own term |
| `Compaction.ReactTwins` | raft/raft.go:333-357 | one input keeps a trimmed node and its untrimmed twin alike and answered alike, but for the index hint |
| `Compaction.CompactionRefines` | raft/raft.go:87-93 | the same for every list of inputs with trimming anywhere in it |
| `RaftServer.ResetLoop` | raft/raft.go:1052-1058 | the loop over a growing map ends, sets every id, and leaves no match index of an earlier leadership |
| `RaftServer.Server.constructor` | raft/raft.go:1201-1245 | a new server's view is a new node |
| `RaftServer.Server.PersistState` | raft/raft.go:247-290 | the saved term, vote, commit index and snapshot index become the current ones, and nothing else changes |
| `RaftServer.Server.RequestVote` | raft/raft.go:360-410 | new state and reply are those of `HandleVote`; when a vote is granted is the subject of `Electable.GrantedExactly` |
| `RaftServer.Server.ConflictStart` | raft/raft.go:505-519 | the backward scan finds the start of the run of equal terms, cut off at the snapshot |
| `RaftServer.Server.MergeEntries` | raft/raft.go:530-546 | the loop over sent entries is `Merge` on the untrimmed log |
| `RaftServer.Server.CheckPrev` | raft/raft.go:494-519 | the consistency check with its shortcut is `Refusal` |
| `RaftServer.Server.AppendEntries` | raft/raft.go:464-561 | new state and reply are those of `HandleAppend` |
| `RaftServer.Server.StartElection` | raft/raft.go:1070-1100 | new state and request are those of `StartElection` on nodes |
| `RaftServer.Server.ProcVoteAnswer` | raft/raft.go:1001-1027 | new state and verdict are those of `HandleVoteReply` |
| `RaftServer.Server.CollectVote` | raft/raft.go:1029-1068 | the new state is that of `CountVote`, with the reset of the index maps when the node wins |
| `RaftServer.Server.Start` | raft/raft.go:955-980 | the new state is that of `Submit`; index and term are those of the new entry |
| `RaftServer.Server.MakeRequest` | raft/raft.go:856-890 | the request carries the untrimmed log's entries after the previous index |
| `RaftServer.Server.CountHolders` | raft/raft.go:609-619 | the counting loop counts the set of holders |
| `RaftServer.Server.AdvanceCommit` | raft/raft.go:606-628 | the commit index becomes what `CommitSearch` finds |
| `RaftServer.Server.BackOff` | raft/raft.go:641-671 | the next index becomes that of `Backoff`, scan included |
| `RaftServer.Server.OnAppendReply` | raft/raft.go:576-674 | the new state is that of `HandleAppendReply`; a later term ends in what `Demotion.HigherTermDemotes` states |
| `RaftServer.Server.Snapshot` | raft/raft.go:333-358 | a call past the snapshot index and within the commit index ends with the snapshot index at exactly the one given, the image stored and the log cut to begin there; any other changes nothing; the view is that of `Compact`, with the untrimmed log unchanged |
| `RaftServer.Server.FindIncluded` | raft/raft.go:702-709 | the scan finds the entry at the snapshot's index and term, or there is none |
| `RaftServer.Server.InstallSnapshot` | raft/raft.go:676-739 | where the entry is found, the new state is that of `Install`, and the image is stored exactly when the snapshot is taken over; the result says exactly when the entry is found |
| `RaftServer.Server.OnInstallReply` | raft/raft.go:753-793 | the new state is that of `InstallReply` |
| `WalFrames.VarintRoundTrip` | wal/wal.go:246-251 | a 64-bit length comes back from its varint, whatever follows |
| `WalFrames.VarintBytes` | wal/wal.go:246-251 | each byte carries seven bits, the lowest first, with the high bit on all but the last, and no more bytes than needed |
| `WalFrames.VarintTorn` | wal/wal.go:431-436 | a varint cut short is not taken for a number |
| `WalFrames.NextFrame` | wal/wal.go:431-441 | the next entry of a frame and anything after it is that frame |
| `WalFrames.TornFrame` | wal/wal.go:431-441 | a frame cut anywhere is refused |
| `WalFrames.PayloadOfFrame` | wal/wal.go:507-520 | the reader gets the payload back out of its frame |
| `WalFrames.PositionsAt` | wal/wal.go:238-244 | each recorded position delimits exactly the frame of its payload |
| `WalFrames.LoadEntries` | wal/wal.go:390-415 | the scanning loop is `Scan` |
| `WalFrames.ScanRecovers` | wal/wal.go:390-415 | scanning the frames of any payloads finds exactly their boundaries |
| `WalFrames.ScanRejectsTorn` | wal/wal.go:431-441 | a file cut strictly inside its last frame is corrupt |
| `WalDisk.OneListing` | wal/wal.go:284-312 | a directory has one sorted listing |
| `WalCrash.RecoverIs` | wal/wal.go:327-369 | recovery finishes exactly the truncation whose marker is present, and changes nothing without one |
| `WalCrash.RecoverCut` | wal/wal.go:333-369 | a recovery cut after any operation leaves a disk that recovers to the same |
| `WalCrash.RecoveryRestarts` | wal/wal.go:283-384 | any number of interrupted recoveries in a row come to the result of an uninterrupted one |
| `WalCrash.KeptListing` | wal/wal.go:327-369 | the segments kept in memory are, in index order, all that recovery left in the directory |
| `WalCrash.Unharmed` | wal/wal.go:592-612 | before the marker is in place, whatever the temporary file holds, the old log is the one that is opened |
| `WalCrash.FrontAtomic` | wal/wal.go:608-641 | stopped after any operation, a front truncation recovers to the old files or to the finished ones |
| `WalCrash.BackAtomic` | wal/wal.go:710-755 | the same for a back truncation |
| `WalLayout.FrontHolds` | wal/wal.go:592-641 | the finished front truncation leaves exactly the segments from the index on |
| `WalLayout.BackHolds` | wal/wal.go:694-731 | the finished back truncation leaves exactly the segments up to the index |
| `WalLayout.FrontAllOrNothing` | wal/wal.go:576-665 | after a crash anywhere in a front truncation and in the recoveries, the directory holds the whole old log or exactly the payloads from the index on |
| `WalLayout.BackAllOrNothing` | wal/wal.go:678-762 | the same for a back truncation and the payloads up to the index |
| `WalLayout.CycleHolds` | wal/wal.go:254-274 | a new file after a segment that is not empty leaves the payloads as they are |
| `WalLog.Log.constructor` | wal/wal.go:59-91 | a log over a directory that has not been read yet |
| `WalLog.Log.PushCache` | wal/wal.go:475-483 | the segment is cached, and at most one other is dropped and emptied |
| `WalLog.Log.DropCache` | wal/wal.go:554-563 | every cached buffer is emptied and no other |
| `WalLog.Log.ClearCache` | wal/wal.go:542-552 | the cache is empty and the log is the same |
| `WalLog.Log.FindSegment` | wal/wal.go:764-775 | the binary search finds the last segment that starts at or before the index, or -1 |
| `WalLog.Log.LoadSegmentEntries` | wal/wal.go:390-415 | the buffer becomes the file with its entry boundaries, or the file is corrupt and nothing changes |
| `WalLog.Log.LoadSegment` | wal/wal.go:443-473 | the segment that holds the index is returned loaded, from tail, cache or file, and no error occurs |
| `WalLog.Log.Read` | wal/wal.go:486-521 | the payload at the index, or the exact error |
| `WalLog.Log.WriteBatch` | wal/wal.go:142-207 | the payloads of an ordered batch are appended, across any number of new segments; any other batch changes nothing; after each of its disk operations the directory holds the old payloads and a prefix of the batch |
| `WalLog.Log.Flush` | wal/wal.go:192-197 | the buffer's unwritten part goes to the tail's file, which equals the buffer again |
| `WalLog.Log.Cycle` | wal/wal.go:254-274 | the tail joins the cache, an empty segment follows it, and the payloads stay |
| `WalLog.Log.TruncateFront` | wal/wal.go:565-665 | exactly the payloads from the index on remain, the disk operations are those of the crash theorem, and errors are exact |
| `WalLog.Log.TruncateBack` | wal/wal.go:667-762 | the same for the payloads up to the index |
| `WalLog.Log.Load` | wal/wal.go:283-384 | recovery performs `RecoverOps`; whatever log the directory then holds is the log that is opened; two kinds of marker, or a torn tail, are corrupt |
| `WalRestart.Open` | wal/wal.go:283-384 | whatever log recovery leaves in a directory is opened without error |
| `WalRestart.OpenAfterFrontCut` | wal/wal.go:576-665 | a front truncation cut after any operation, then recoveries cut anywhere: the next opening succeeds with the old payloads or exactly those the truncation keeps |
| `WalRestart.OpenAfterBackCut` | wal/wal.go:678-762 | the same for a back truncation |
| `WalRestart.OpenAfterWriteCut` | wal/wal.go:155-207 | a batch cut between any two of its file writes and new files, then recoveries cut anywhere: the next opening succeeds with the old payloads and a prefix of the batch |
| `WalRuns.Replay` | wal/wal.go:142-775 | any run of writes, reads, cache drops and truncations answers as a plain sequence of payloads does |
| `Names.NumberOrder` | wal/wal.go:386-388 | fixed-width decimal or hexadecimal names sort as their numbers, for all numbers of that width |
| `WalNames.RecogniseExactly` | wal/wal.go:290-312 | exactly the names of segments and markers with a 64-bit index are recognised, each as the file it names |
| `WalNames.NameOrder` | wal/wal.go:290-312 | files sort by index, and at one index the segment, then END, then START |
| `WalNames.DirectoryListing` | wal/wal.go:284-312 | the sorted names of a directory are the listing recovery relies on |
| `Snapshots.NameOrder` | persister/snapshotter.go:51-52 | snapshot names sort by term, then index |
| `Snapshots.CheckSuffix` | persister/snapshotter.go:150-164 | exactly the names with the snapshot suffix are kept |
| `Snapshots.Snapshotter.SaveSnap` | persister/snapshotter.go:44-70 | a snapshot at index 0 is not written; any other becomes readable, and no other snapshot is affected |
| `Snapshots.Snapshotter.LoadSnap` | persister/snapshotter.go:90-103 | an unreadable file is put aside and nothing else changes |
| `Snapshots.Snapshotter.LoadMatching` | persister/snapshotter.go:76-88 | the result is the readable matching snapshot with the greatest term and index, or there is none |
| `KvMachine.HistoryIsGreatest` | server/server.go:239-258 | the table holds, for each clerk, the greatest request number in the log |
| `KvMachine.ExecutedExactly` | server/server.go:239-252 | a request is executed exactly when its number is above all earlier ones of its clerk |
| `KvMachine.AtMostOnce` | server/server.go:239-252 | no log executes one request of one clerk twice |
| `KvMachine.DuplicatesVanish` | server/server.go:239-262 | the data is what the fresh requests alone produce |
| `KvServer.KVServer.DBExecute` | server/server.go:323-355 | data and response are those of `Written` and `Answer`, which `KvValues.StoreHolds` and `KvValues.ExecutedAnswer` tell from the requests alone |
| `KvValues.StoreHolds` | server/server.go:323-355 | executed in order, any requests leave exactly the keys that were written, each with the value of its last Put followed by the Appends after it |
| `KvValues.LogHolds` | server/server.go:239-262 | the same for the store of a log, over those of its requests that are no repeats |
| `KvValues.ExecutedAnswer` | server/server.go:323-355 | a request is answered with its own number, clerk and key: a Get with 200 and that value, or with 100 and nothing if the key was never written; a write with 200 |
| `KvValues.RespondsUnique` | server/server.go:323-355 | there is only one such answer |
| `KvValues.HistoryRemembers` | server/server.go:239-258 | the table holds, for each clerk, the answer its latest request got when it was executed |
| `KvValues.NewAnswered` | server/server.go:239-271 | a command that is new to its clerk is answered with its own result, marked 102 exactly when its number is in the table under another term |
| `KvValues.RepeatAnswered` | server/server.go:239-271 | its clerk's latest request once more is answered as it was the first time, marked in the same way |
| `KvValues.ChangedExactly` | server/server.go:255-271 | a response carries 102 exactly when the number it names is in the table under another term |
| `KvValues.NumberLeaves` | server/server.go:255-271 | a delivery takes exactly the number its response names out of the table |
| `KvServer.KVServer.ApplyCommand` | server/server.go:216-271 | new state and sent response are those of `Deliver` and `Sent`, for every table, term and index |
| `KvServer.KVServer.ApplySnapshot` | server/server.go:281-321 | a snapshot at or past the applied index replaces the store, or leaves it if it cannot be decoded, and counts as applied; an older one changes nothing |
| `KvServer.KVServer.ReadTurn` | server/server.go:137-206 | new table and answer are those of `ReadState` and `ReadSent`, the store unchanged; what they are is the subject of the next two rows |
| `KvServer.UnlistedTurn` | server/server.go:140-199 | a read that is not in the table gets data exactly when it is confirmed and its sample is applied, waits with the sample in the table when it is confirmed and not applied, and is otherwise answered 102 with no stored value and the table as it was |
| `KvServer.ListedTurn` | server/server.go:186-199 | a read that is in the table is answered exactly when the index it has there is applied, always with data, and only then leaves the table |
| `KvServer.SampledExactly` | server/server.go:137-140 | the answer of a turn is independent of sample and heartbeats exactly when the read's number is in the table |
| `KvServer.WaitsExactly` | server/server.go:190-199 | a turn never answers before the sampled index is applied, exactly when its number is not in the table with a smaller index |
| `KvReplay.ReplayIsFull` | server/server.go:219-321 | snapshot plus suffix equals full replay, through repeats, restarts and any snapshots |
| `KvReplay.SameStores` | server/server.go:217-262 | two servers fed in line from any two nodes at any two moments, up to the same committed index, hold the same store |
| `KvReplay.GapLoses` | raft/raft.go:732-736 | a command that overtakes an entry loses it for some log |
| `KvReplay.FaithfulExactly` | server/server.go:219-287 | a feed leaves the full replay for every log exactly when no command overtakes another |
| `KvReplay.RecordingAgreesExactly` | server/server.go:250-262 | the recording rule as written agrees with recording always exactly when the delivery is old, a duplicate, or started here in its term |
| `KvReplay.RepeatSuppressedExactly` | server/server.go:250-262 | a repeat is suppressed exactly when the first delivery was started here in its term |
| `KvReplay.FollowerRepeats` | server/server.go:250-262 | a follower appends twice for a request that is in the log twice |
| `KvReplay.RecordedRunsAgree` | server/server.go:217-262 | as long as every execution is recorded, the code as written runs as intended |
| `KvReplay.ReadAnswers` | server/server.go:137-206 | a served read's response is 200 with the key's value, by last Put and later Appends in the first `applied` requests of the leader's log, or 100 if it was never written there |
| `KvReplay.DataIsServed` | server/server.go:137-206 | whatever a turn of an unlisted read answers with data has been confirmed by a quorum in the term of the heartbeats and has waited for its sample |
| `KvReplay.DataIsFresh` | server/server.go:137-206 | and if the leader had a commit of its own term and the heartbeats came at most one term later, that data is the key's value in a log that begins with all that any node had committed at the sample |
| `KvReplay.CommandAnswered` | server/server.go:216-271 | a server fed in line answers the next entry, if it is no repeat, with its own result at that place of the log, marked 102 exactly when its number is in the table under another term |
| `KvReplay.UnreadableExactly` | server/server.go:302-321 | with a snapshot that cannot be decoded the store is that of the log, for every log, exactly when the snapshot would have brought nothing new |
| `KvReplay.ReadSeesCommitted` | server/server.go:137-206 | those requests begin with all that any node had committed when the read was sampled, if the leader had a commit of its own term and is confirmed at most one term later |
| `KvReplay.SharedNumberServes` | server/server.go:120-138 | a read whose number a write has put in the table is answered from what happens to be applied, for every sample, confirmed or not |
| `WireFormat.LeRoundTrip` | proxy/response.go:114-143 | little-endian integers come back |
| `WireFormat.ByteWeighs` | proxy/response.go:149-193 | byte i of an integer weighs 256 to the power i |
| `WireFormat.FromLeRoundTrip` | proxy/response.go:149-193 | any bytes are the encoding of the number they are read as |
| `WireFormat.HeadFields` | proxy/response.go:114-143 | operation, length, number, clerk, server and error stand at bytes 0, 4, 8, 16, 20 and 24 of the header |
| `WireFormat.UnpackHead` | proxy/response.go:149-193 | every header field comes back, unless the announced length is over the limit |
| `WireFormat.BodyRoundTrip` | proxy/body_pack.go:42-73 | key and value come back from a packed body |
| `Clerk.ParseInPieces` | server/client.go:229-259 | parsing bytes in two pieces is parsing them at once, for any bytes |
| `Clerk.NextPacked` | server/client.go:234-249 | a whole response at the front of the buffer is found as it was sent |
| `Clerk.NextCut` | server/client.go:231-238 | a response cut short makes the parser wait |
| `Clerk.ParsePrefix` | server/client.go:229-259 | any first bytes of a stream yield its first responses and leave room in the buffer |
| `Clerk.FirstAnswers` | server/client.go:219-226 | a waiting caller is answered by the first whole response with its number, and by no other |
| `Clerk.Receiver.constructor` | server/client.go:135-158 | an empty buffer with nobody waiting |
| `Clerk.Receiver.ProcessResponse` | server/client.go:209-227 | a whole body goes to its caller, who stops waiting; a short one changes nothing |
| `Clerk.Receiver.TakeMessage` | server/client.go:229-259 | one message is copied out and delivered and the rest moved to the front, or nothing changes |
| `Clerk.Receiver.ProcessGetBuffer` | server/client.go:229-259 | the loop ends, and handles exactly what `Parse` finds in the buffer |
| `Clerk.Receiver.Receive` | server/client.go:310-326 | one read is handled as if its bytes had been in the buffer all along |
| `Clerk.Receiver.ReceiveAll` | server/client.go:310-326 | however the bytes arrive, exactly the sent responses are handled in order, and earlier payloads keep their bytes |
| `Clerk.ViewSurvivesExactly` | server/client.go:281-289 | a payload kept as a view of the buffer survives the shift, for all bytes, exactly when it is empty or at most a header's worth of bytes follows |

## Left out

- gRPC, TCP, listeners, timers and retries: messages are values, and timeouts happen at any step.
- The JSON entry format of the log, file-system errors, file permissions and syncing: only the binary format, and crashes between operations.
- Reads of the log that change its cache under a shared lock: one operation at a time.
- The cache library: any cached segment may be looked at first, and any but the newest may be evicted.
- Segments are values in a sequence and the cache holds positions; the source shares pointers, and clears the cache whenever positions move.
- The batch of a write is a list of entries; the source keeps one byte buffer with sizes, and empties it on success.
- A crash in the middle of a single file write: a torn tail is detected, and nothing more is claimed.
- Indices of the log are unbounded; a log of 2^64 entries is not.
- The persister's queue of entries and its checksum table, which do not keep the stored log equal to the Raft log: a restart reloads the saved term, vote and commit index and the whole log.
- Follower reads through the leader's commit index, and the load balancing and retry logic of the proxy.
- RaftServer.Server.InstallSnapshot: where the included entry is not found, the code builds a log of two entries whose first is missing; the model of whole runs leaves the log as it is, and the result says exactly when this branch is taken. What becomes of such a log is the subject of LocalRules.GapRepairedExactly.
- ReadIndex.ReadReflectsCommitted: leaders with a commit of their own term, and heartbeats at most one term after the sample; without either freshness fails, as StaleReads.FreshExactly states.
- KvReplay.ReadSeesCommitted: under the same two conditions as ReadIndex.ReadReflectsCommitted.
- Scenarios: `CodeStep` is what the code does, not all it does; snapshots sent after an accepted request, for one, are not among its steps.
- Images.TrimmingLosesNothing: runs in which a crash reloads a snapshot the node has held, and, as in all runs here, a snapshot whose last entry is not in the log leaves the log as it is.
- Progress.MajorityCommits: a majority that has trimmed nothing, since a peer without the last entry of the leader's snapshot gets the log of LocalRules.GapRepairedExactly; that such a run exists, not that every run comes to it.
- Electable.MajorityElects: no cluster of one or two nodes ever has a leader, as Departures.PairNeverLeads states.
- The queue of requests in front of Raft, which answers a repeat from the table of last responses before it is submitted.
- Compaction.CompactionRefines: leaves out snapshots installed from a leader and requests below the snapshot index, which an untrimmed node has no counterpart for.
- BackOff.ProbingSettles: one leader and one follower in turn, with nothing else happening to either; the same for BackOff.SettlesExactly.
- KvReplay.ReadAnswers: a server fed in line and, under the recording rule as written, with every execution recorded; other feeds are the subject of KvReplay.FaithfulExactly and KvReplay.RecordingAgreesExactly.
- Snapshots.NameOrder: terms and indices from 0 to 2^63 - 1; negative values, which the source's type allows and its writer never produces, are not.
- Snapshots.Snapshotter.LoadMatching: the library's sort is a condition on the list of names.
- A committed entry without a command stops the server; the model's deliveries all carry one.
- KvServer.KVServer.ReadTurn: the leader's path only, one turn of the polling loop.
- Clerk.Receiver.ReceiveAll: responses that fit the buffer; a longer one fills the buffer and the source reads zero bytes for ever.
- The package limit is a parameter, since the configuration object it is read from is not part of this model.
- The server's own packing of responses and requests for sending, and the codecs between proxy and server.
