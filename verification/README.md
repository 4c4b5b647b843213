# Verified core of the inference control plane

A Dafny model of the state machines behind a fleet of inference nodes, with proofs of what
they guarantee over whole runs: scheduler leader election, the node's radix prompt cache, signed
mesh requests with a bounded nonce store, the tenant rate limiter, the node registry and its
write-through store, stale-node eviction, layer pipelines, node selection, flow control, mesh token
streams, the break-even search and the playground's SSE reader.

`dafny verify dfyconfig.toml` checks everything.

## How it is organised

| files | component |
|---|---|
| `Consensus`, `ConsensusRuns`, `ConsensusHistory`, `ConsensusSafety`, `ConsensusElections`, `ConsensusLimits`, `ConsensusProgress` | one scheduler's handlers; runs of a cluster over a lossy mesh with restarts; every field told from the events; the election invariant; building blocks for runs; exactly what holds; a proposal brought to everybody |
| `RadixTrie`, `RadixCache`, `RadixHeap` | the compressed trie as a value; cache histories; the mutable trie and cache |
| `MeshProtocol`, `MeshReplay` | envelope, verification and nonce store; runs of a verifying node |
| `RateLimiter` | token buckets, idle sweep, tenants |
| `Registry`, `RegistryHistory`, `RegistryHeap`, `Router`, `RouterHeap` | registry and tables, restarts; verified heartbeats, liveliness, the stale sweep and what a restart forgets |
| `Pipeline`, `PipelineFits`, `PipelineEngine` | partitions, the validator and restitching; when layers fit at all; the engine's loops |
| `Selection`, `Economics` | dampened greedy selection; break-even bisection |
| `Backpressure`, `MeshStreaming` | sliding-window flow control; node to dispatcher token streams |
| `Sse`, `SseLine` | incremental line splitting and the reader loop; one line's meaning |
| `Common`, `Sequences` | option, result, clock and sequence helpers |

Code that changes state in place appears twice: as value functions, on which runs and proofs are
built, and as a class whose methods assign fields and are proved equal to those functions. Each
locked handler is one atomic step. Floating-point numbers are reals, clocks are explicit inputs,
hashes and MACs are arbitrary functions.

## Where the code falls short of what it promises

Each finding is proved: with a witness and the exact condition where the promise holds sometimes, for
every input where it never does.

- Elections. Every scheduler subscribes to `consensus/*`, while a vote response goes to
  `consensus/<candidate>` and does not name the candidate in its body
  (experimental/scheduler/consensus.py:81-83, 202-205, 366-376, 389-404). A candidate therefore counts
  votes cast for its rival. Term, vote and log live in memory only, so a restarted scheduler votes again.
  Election safety holds exactly when votes reach only their candidate (or the cluster has two members) and
  fewer schedulers restart than two quorums share (`ConsensusLimits.ElectionSafeIff`); comparability of
  same-term logs exactly under the first condition and without restarts
  (`ConsensusLimits.LogsComparableIff`); one vote per term exactly for two members and without restarts,
  whatever the routing (`ConsensusLimits.OneVotePerTermIff`).
- Proposals. `propose` promises to block until the change is committed, but a scheduler that forwards it
  to the leader polls while holding the engine's lock (experimental/scheduler/consensus.py:130, 149-170),
  which every handler that could extend its log needs. It times out for every number of polls
  (`Consensus.ConsensusEngine.ProposeLocally`).
- Flow control. The ACK callback runs on the mesh library's thread, and the sender clears its event
  after finding the window full (experimental/node/transport.py:134-153, 171-173). An ACK in between is
  forgotten and the sender sleeps for good; no wake-up is lost exactly when callbacks are confined to
  the event loop and the window, which is unchecked, is positive (`Backpressure.NeverStrandedIff`).
- Stale eviction. A restart reloads the registry but not the router's memory of heartbeats
  (packages/scheduler/src/scheduler/main.py:88, packages/scheduler/src/scheduler/core/zenoh_router.py:72),
  and the first sweep comes before the stale threshold has passed, so a node heard moments before the
  restart, and not yet again, is evicted. Only silent nodes are removed exactly when checks wait a whole threshold after a
  restart (`RouterModel.GraceSufficesIff`, with the run in `RouterModel.RestartForgets`).
- Nonces. The nonce store does not survive a restart either; a request stays single-use across one
  exactly when the node then refuses requests for more than sixty seconds
  (`MeshReplay.GraceStopsReplayIff`).
- Token streams. A reply that fails to be sent is swallowed and the stream goes on
  (packages/node/src/node/clients/mesh_inference_server.py:215-220), and the client only logs an index
  that goes backwards. A stream that ends cleanly carries the whole text exactly when every lost chunk
  was empty (`MeshStreaming.CleanEndIsWholeIff`, with the input in `MeshStreaming.DroppedChunkGoesUnnoticed`).
- Playground. `break` on `[DONE]` leaves only the inner loop, so text after the terminator is shown
  or not depending on chunk boundaries (packages/website/src/app/playground/page.tsx:191-209); the text
  is independent of chunking exactly when nothing after the first terminator carries any
  (`Sse.ChunkingIsIrrelevantIff`, with the texts in `SseLine.CutAfterDoneMatters` and `SseLine.ChunkAfterDone`).
- Body digest. NUL separates the digest's fields but may occur inside them
  (packages/shared/src/pi_shared/mesh_protocol.py:131-140), in the prompt as well as in the model. A
  signature binds the request it was made for exactly when neither holds a NUL, which the signer can
  check (`MeshProtocol.SignatureBindsRequestIff`, with an accepted re-split in
  `MeshProtocol.PromptMovesIntoModel`).
- Restitching. The failed node's stages all go to the first active node, with no look at what it already
  holds (packages/scheduler/src/scheduler/core/engine.py:438-463). Nodes stay distinct, and VRAM stays
  sufficient, exactly under the conditions of `PipelineModel.RestitchKeepsDistinctIff` and
  `PipelineModel.RestitchFitsIff`; `PipelineModel.RestitchDoublesUp` shows two stages on one node.
- Break-even. The search judges "never" by full utilisation. With a negative standing charge that can be
  wrong (`Economics.NeverIsWrong`); it is right exactly when the charge is not negative or a fully
  utilised year earns it back (`Economics.FullUtilisationDecidesIff`).

## Model

| member | source | states |
|---|---|---|
| `ConsensusLimits.ElectionSafeIff` | experimental/scheduler/consensus.py:280-421 | over all runs with loss, repetition, reordering and at most k schedulers restarting, no term has two leaders at any two moments, if and only if a vote can be counted only by the candidate it was cast for (own-key delivery, or two members) and k is less than what two quorums share: one in an odd cluster, two in an even one |
| `ConsensusLimits.WildcardElectsTwo` | experimental/scheduler/consensus.py:78-83 | for every cluster of three or more under the wildcard subscription and any two members, a run without restarts in which both lead term 1 |
| `ConsensusLimits.RestartsElectTwo` | experimental/scheduler/consensus.py:36-60 | under either routing, for every cluster of three or more, a run in which as many voters restart as two quorums share and two schedulers lead term 1 together |
| `ConsensusLimits.PairElectsTwo` | experimental/scheduler/consensus.py:36-60 | in a cluster of two, both restarting lets the second lead the term the first one led |
| `ConsensusLimits.LogsComparableIff` | experimental/scheduler/consensus.py:301-327 | any two AppendEntries of one term come from one leader with one log extending the other, if and only if votes reach only their candidate and nobody restarts |
| `ConsensusLimits.WildcardLogsDiverge` | experimental/scheduler/consensus.py:490-497 | under the wildcard subscription two leaders of one term publish incomparable logs, in every cluster of three or more |
| `ConsensusLimits.RestartRewritesLog` | experimental/scheduler/consensus.py:389-404 | in every cluster, a leader that restarts is elected again in its term by votes still in flight and publishes a log incomparable with its first |
| `ConsensusLimits.OneVotePerTermIff` | experimental/scheduler/consensus.py:406-421 | a vote is never changed inside a term if and only if the cluster has two members and nobody restarts |
| `ConsensusLimits.VoteIsRegranted` | experimental/scheduler/consensus.py:415-421 | in every cluster of three or more, under either routing and without restarts, a run in which a candidate's own vote is cleared and given to its rival in the same term |
| `ConsensusLimits.RestartVotesAgain` | experimental/scheduler/consensus.py:280-285 | in every cluster, one restart lets a candidate vote for its rival in the term it stood in |
| `ConsensusSafety.SafeUnderAddressing` | experimental/scheduler/consensus.py:280-404 | with fewer restarts than two quorums share members, two leaders of one term, at two moments of one run, are the same scheduler |
| `ConsensusSafety.WinnerIsAlone` | experimental/scheduler/consensus.py:396-404 | a scheduler that becomes leader is the only one that ever led that term: the quorums meet in a voter that has not restarted and would have voted twice |
| `ConsensusSafety.QuorumsMeet` | experimental/scheduler/consensus.py:402-403 | two quorums share a member outside any set smaller than their overlap |
| `ConsensusSafety.StepKeepsInv` | experimental/scheduler/consensus.py:223-253 | every timeout, tick, proposal, delivery and restart keeps the invariant: a granted voter that has not restarted is out of the race, past leaders had a quorum, those that have not restarted never voted for a rival and extend what they published |
| `ConsensusSafety.ReactionIsDisciplined` | experimental/scheduler/consensus.py:329-497 | every handler keeps a follower's vote, keeps a leader leading and extending its log, and makes nobody leader without a counted quorum |
| `ConsensusSafety.LeaderLogOnlyGrows` | experimental/scheduler/consensus.py:406-438 | under either routing and between any two moments of a run in one term without a restart of its own, a follower is still one, and a leader has stepped down or its log extends the log it had |
| `ConsensusSafety.LeaderStays` | experimental/scheduler/consensus.py:414-421 | where votes reach only their candidate and restarts are fewer than the overlap of quorums, a leader steps down inside its term only by restarting |
| `ConsensusSafety.RunGrows` | experimental/scheduler/consensus.py:280-285 | no published packet is withdrawn, and no scheduler returns to an earlier term without a restart |
| `ConsensusProgress.ProposalCommits` | experimental/scheduler/consensus.py:280-497 | in every cluster and under either routing, a run in which a proposal ends up in everybody's log and committed there: election, copies, acknowledgements, majority and the leader's word |
| `ConsensusHistory.LogIsHistory` | experimental/scheduler/consensus.py:406-438 | in every run a scheduler's log is what the events say: empty at first and after a restart, a copy of the last log a leader of no earlier term sent it, with the proposals it took while leading |
| `ConsensusHistory.FollowerHoldsCopy` | experimental/scheduler/consensus.py:437-438 | a scheduler that has not won since holds exactly the entries of the last AppendEntries it took since its restart |
| `ConsensusHistory.AcksAreBacked` | experimental/scheduler/consensus.py:443-453 | in every run, a successful acknowledgement of term t and position m answers an AppendEntries of term t with m + 1 entries from the scheduler it goes to |
| `ConsensusHistory.LogIsAnswered` | experimental/scheduler/consensus.py:423-453 | every AppendEntries is answered to its sender, taken with the length it brought or refused by the later term |
| `ConsensusHistory.GrantedIff` | experimental/scheduler/consensus.py:337-387 | a ballot is granted exactly when the voter is free in that term and the candidate's log does not end before its own; reply, vote and role afterwards |
| `ConsensusHistory.GrantsWereAsked` | experimental/scheduler/consensus.py:364-376 | in every run, a granted vote answers a ballot of its candidate in that term |
| `ConsensusHistory.StandingAsks` | experimental/scheduler/consensus.py:280-299 | whoever stands votes for itself and describes the end of its own log, which is never behind an equal one (`EqualLogsMayVote`) |
| `ConsensusHistory.VoteAfter` | experimental/scheduler/consensus.py:414-421 | away from ballots a vote is lost exactly to a restart, a later term, or a leader met while not following, and cast only for oneself |
| `ConsensusHistory.WinsIff` | experimental/scheduler/consensus.py:396-404 | a candidate wins exactly by the vote that makes more than half the cluster, and publishes its log at once |
| `ConsensusHistory.TermAfter` | experimental/scheduler/consensus.py:338-342 | a term changes exactly by a restart, by standing, or to a later one heard of in a ballot, a log or an acknowledgement |
| `ConsensusHistory.AcksAreRecorded` | experimental/scheduler/consensus.py:475-476 | in every run a leader's record of each peer is that peer's last acknowledgement since the election, or -1 |
| `ConsensusHistory.CommitIsMajority` | experimental/scheduler/consensus.py:478-488 | an acknowledgement moves the commit index to the furthest position that more than half the cluster, the leader included, is known to hold, or leaves it |
| `ConsensusHistory.CommitAfter` | experimental/scheduler/consensus.py:440-441 | otherwise it moves exactly by a restart and by a leader's larger word |
| `ConsensusHistory.LeaderIsHistory` | experimental/scheduler/consensus.py:338-342 | in every run the leader a scheduler knows is itself after winning, else the sender of the last log it took, forgotten on a later term heard of elsewhere |
| `ConsensusHistory.ProposalGoesToLeader` | experimental/scheduler/consensus.py:137-160 | a proposal is appended and published by a leader, sent on to the known leader by anybody else, and goes nowhere without one |
| `ConsensusHistory.TickRepeatsLog` | experimental/scheduler/consensus.py:269-278 | a leader's tick publishes its term, whole log and commit index; nobody else's says anything |
| `Consensus.CommitPoint` | experimental/scheduler/consensus.py:478-488 | the commit index becomes the highest position above it that a quorum holds, and stays when there is none |
| `Consensus.ConsensusEngine.ElectionTimeout` | experimental/scheduler/consensus.py:255-299 | a leader is left alone, anyone else starts an election for the next term; whole new state and packets |
| `Consensus.ConsensusEngine.HandleRequestVote` | experimental/scheduler/consensus.py:329-387 | whole new state and reply, refusals included |
| `Consensus.ConsensusEngine.HandleVoteResponse` | experimental/scheduler/consensus.py:389-404 | whole new state and, on a quorum, the first heartbeat |
| `Consensus.ConsensusEngine.HandleAppendEntries` | experimental/scheduler/consensus.py:406-453 | a stale one changes nothing; any other makes a follower of its term that knows its sender as leader, holds exactly its entries and has committed as far as it says or further; and the reply |
| `Consensus.ConsensusEngine.CountReplicas` | experimental/scheduler/consensus.py:480-483 | the counting loop returns one more than the peers whose match index reaches the position |
| `Consensus.ConsensusEngine.HandleAppendResponse` | experimental/scheduler/consensus.py:455-488 | whole new state, the downward commit search included |
| `Consensus.ConsensusEngine.HandlePropose` | experimental/scheduler/consensus.py:490-497 | a leader appends and publishes, others ignore |
| `Consensus.ConsensusEngine.ProposeLocally` | experimental/scheduler/consensus.py:137-171 | a leader appends, publishes and awaits the commit of that position; without a known leader the call raises; a scheduler that forwards always times out, however often it polls, because it holds the lock that any change it waits for needs |
| `Consensus.ConsensusEngine.PollForwarded` | experimental/scheduler/consensus.py:163-169 | a poll finds exactly a committed entry with this action and data at a position beyond the old end of the log |
| `RadixTrie.InsertHolds` | packages/node/src/node/core/radix_cache.py:125-149 | inserting, splits included, adds exactly one word to what the trie spells |
| `RadixTrie.InsertShaped` | packages/node/src/node/core/radix_cache.py:125-149 | siblings start with different tokens and every non-root node is marked or branches, before and after |
| `RadixTrie.InsertAllSpells` | packages/node/src/node/core/radix_cache.py:151-155 | a rebuilt trie is compressed and spells exactly the prompts it was rebuilt from |
| `RadixTrie.SearchIsDeepest` | packages/node/src/node/core/radix_cache.py:96-118 | the search stops at the deepest node on the query's path |
| `RadixTrie.NodesAreAnchors` | packages/node/src/node/core/radix_cache.py:125-149 | the strings at nodes are exactly the empty one, the words, and the common prefixes of two distinct words |
| `RadixTrie.SearchFindsLongestAnchor` | packages/node/src/node/core/radix_cache.py:96-118 | the search returns the longest prefix of the query anchored by the plain set of words |
| `RadixCacheModel.RunIsGood` | packages/node/src/node/core/radix_cache.py:40-80 | after every history, trie and prompts spell the same set, the trie is compressed, no prompt occurs twice and the capacity holds |
| `RadixCacheModel.LookupIsLongestAnchor` | packages/node/src/node/core/radix_cache.py:40-60 | after every history a lookup splits the query at its longest anchored prefix |
| `RadixCacheModel.HistoryDoesNotMatter` | packages/node/src/node/core/radix_cache.py:40-80 | two histories leaving the same prompts cached answer every lookup alike |
| `RadixCacheModel.RunByRecency` | packages/node/src/node/core/radix_cache.py:53-74 | the prompt order is the order of last use, after every history |
| `RadixCacheModel.EvictionIsLeastRecent` | packages/node/src/node/core/radix_cache.py:62-80 | an insertion over capacity drops exactly one prompt, and none that stays was used less recently |
| `RadixCacheModel.InsertionFits` | packages/node/src/node/core/radix_cache.py:62-80 | an insertion that fits the capacity adds exactly its prompt |
| `RadixCacheModel.HoldsAllThatFits` | packages/node/src/node/core/radix_cache.py:62-80 | after every history as many prompts are cached as were ever inserted, up to the capacity, and no others |
| `RadixCacheModel.CachedAreMostRecent` | packages/node/src/node/core/radix_cache.py:53-80 | no prompt ever inserted that is not cached was used more recently than one that is |
| `RadixCacheModel.InsertedIsFound` | packages/node/src/node/core/radix_cache.py:40-80 | with any capacity at all, a prompt just inserted is found under everything that continues it |
| `RadixCacheModel.LookupKeepsPrompts` | packages/node/src/node/core/radix_cache.py:53-58 | a lookup caches and drops nothing |
| `RadixHeap.TrieNode.SplitAt` | packages/node/src/node/core/radix_cache.py:134-143 | the in-place split of a heap node is the split of the value trie |
| `RadixHeap.TrieNode.InsertNode` | packages/node/src/node/core/radix_cache.py:125-149 | in-place insertion on the heap is insertion on the value trie, and touches only the trie's own nodes |
| `RadixHeap.CommonPrefixLength` | packages/node/src/node/core/radix_cache.py:86-94 | the loop returns the length of the longest common prefix |
| `RadixHeap.RadixTrieCache.SearchTrie` | packages/node/src/node/core/radix_cache.py:96-118 | the loop splits the prompt where the recursive search does |
| `RadixHeap.RadixTrieCache.TouchAll` | packages/node/src/node/core/radix_cache.py:53-58 | moving matching keys one by one leaves the others first and the matching ones last, both in their old order |
| `RadixHeap.RadixTrieCache.LookupPrefix` | packages/node/src/node/core/radix_cache.py:40-60 | prefix and suffix make up the query, the prefix is its longest anchored one, and the cache is the model's next state |
| `RadixHeap.RadixTrieCache.InsertPrefix` | packages/node/src/node/core/radix_cache.py:62-80 | the prompt is cached if there is any capacity, nothing else is dropped if it fits, and the cache is the model's next state, eviction and rebuild included |
| `RadixHeap.RadixTrieCache.RebuildTrie` | packages/node/src/node/core/radix_cache.py:151-155 | a new trie with the prompts inserted in order |
| `MeshReplay.NonceIsSingleUse` | packages/shared/src/pi_shared/mesh_protocol.py:159-189 | with a clock that never steps back, if no closed interval of 60 seconds plus a slack holds more accepted nonces than the store, a nonce accepted once is accepted again only under a timestamp more than the slack later |
| `MeshReplay.SignatureIsSingleUse` | packages/shared/src/pi_shared/mesh_protocol.py:237-332 | under the same premise no signature is accepted twice, the slack covering the rendering of timestamps |
| `MeshReplay.OneMoreNonceReplays` | packages/shared/src/pi_shared/mesh_protocol.py:171-189 | the bound is tight: for every capacity, one nonce more than it in one instant lets the first request in again |
| `MeshReplay.GraceStopsReplayIff` | packages/shared/src/pi_shared/mesh_protocol.py:159-169 | across a restart, which empties the store, a payload stays single-use if and only if the node refuses requests for more than twice the skew window, or accepts none at all |
| `MeshProtocol.Oldest` | packages/shared/src/pi_shared/mesh_protocol.py:171-189 | the entry to evict is the first with the smallest timestamp |
| `MeshProtocol.NonceCache.FindOldest` | packages/shared/src/pi_shared/mesh_protocol.py:171-189 | the loop finds that entry |
| `MeshProtocol.NonceCache.ClaimNonce` | packages/shared/src/pi_shared/mesh_protocol.py:171-189 | a known nonce is refused without a change, a new one is stored, the oldest goes when the store is full, an empty store that is full raises |
| `MeshProtocol.NonceCache.VerifyRequest` | packages/shared/src/pi_shared/mesh_protocol.py:237-332 | every refusal in the source's order, and a nonce is spent only by an otherwise genuine request |
| `MeshProtocol.BuiltRequestVerifies` | packages/shared/src/pi_shared/mesh_protocol.py:192-229 | a request built for a node verifies there to the same request, unless its nonce is already known |
| `MeshProtocol.AuthenticIff` | packages/shared/src/pi_shared/mesh_protocol.py:237-310 | exactly the envelopes of version 1 (or `true`) with well-typed fields, for this node, stamped within thirty seconds either way and signed with the node's non-empty token over node, nonce, timestamp and body digest pass every check but the nonce's |
| `MeshProtocol.FirstFailureIsBlamed` | packages/shared/src/pi_shared/mesh_protocol.py:262-310 | whatever is refused is refused for the first check it fails, in the source's order |
| `MeshProtocol.ClaimRemembers` | packages/shared/src/pi_shared/mesh_protocol.py:171-189 | a claim fails exactly on a known nonce; a new one is stored last, at the cost of the first of the oldest entries if there was no room |
| `MeshProtocol.SignatureBindsRequestIff` | packages/shared/src/pi_shared/mesh_protocol.py:131-156 | with collision-free primitives, every envelope that authenticates under a request's signature is that request, if and only if its model and prompt hold no NUL |
| `MeshProtocol.SignatureBindsNonce` | packages/shared/src/pi_shared/mesh_protocol.py:143-156 | whatever the body, an envelope that authenticates under a signature has the nonce, the rendered timestamp and the digest material it was made for |
| `MeshProtocol.ResplitIsAccepted` | packages/shared/src/pi_shared/mesh_protocol.py:237-332 | for every request with a NUL, an envelope carrying its signature that the node accepts as a different request |
| `MeshProtocol.PromptMovesIntoModel` | packages/shared/src/pi_shared/mesh_protocol.py:131-140 | model `a` with prompt `b NUL c` is accepted as model `a NUL b` with prompt `c`, under one signature |
| `MeshProtocol.MaterialBindsBodyIff` | packages/shared/src/pi_shared/mesh_protocol.py:131-140 | no other request of the node has this request's digest material, if and only if its model and prompt hold no NUL |
| `MeshProtocol.SameModelSameBody` | packages/shared/src/pi_shared/mesh_protocol.py:131-140 | under one model the digest material determines prompt and stream flag |
| `RateLimiter.SharedIsPrivate` | packages/scheduler/src/scheduler/core/rate_limiter.py:50-113 | for every interleaving of tenants and sweeps, each call gets the answer of the tenant's private, never-evicted bucket |
| `RateLimiter.TokensAreConserved` | packages/scheduler/src/scheduler/core/rate_limiter.py:92-113 | for every capacity, tokens in hand plus grants since a moment never exceed a full bucket (none if the capacity is negative) plus the inflow since |
| `RateLimiter.GrantsAreBounded` | packages/scheduler/src/scheduler/core/rate_limiter.py:72-113 | over any interval a tenant gets at most the capacity (zero if negative) plus rate times its length, across sweeps and re-creations |
| `RateLimiter.RefusedIff` | packages/scheduler/src/scheduler/core/rate_limiter.py:81-113 | in every interleaving a call is refused if and only if the capacity is below one, or for some earlier call of the tenant the grants since then plus one exceed the capacity plus the rate times the time since |
| `RateLimiter.PatienceIsRewarded` | packages/scheduler/src/scheduler/core/rate_limiter.py:105-112 | a tenant that has waited for one token to flow in since each of its calls is granted |
| `RateLimiter.EverySweepForgetsIff` | packages/scheduler/src/scheduler/core/rate_limiter.py:50-79 | a bucket of another tenant is forgotten exactly by every 256th call, if it was idle long enough and has refilled to the brim |
| `RateLimiter.TokenBucketLimiter.EvictIdle` | packages/scheduler/src/scheduler/core/rate_limiter.py:50-79 | collecting then deleting removes exactly the buckets idle long enough that would be full by now, from both maps |
| `RateLimiter.TokenBucketLimiter.TryAcquire` | packages/scheduler/src/scheduler/core/rate_limiter.py:81-113 | sweep counter, refill and take: answer and whole new state |
| `RegistryModel.RunAgrees` | packages/scheduler/src/scheduler/registry/node_registry.py:62-395 | after every history of operations and restarts, tables hold the same nodes in the same order and the same tokens as memory, dampener keys are node keys, and only registered nodes have heartbeats |
| `RegistryModel.RestartIsFaithful` | packages/scheduler/src/scheduler/registry/node_registry.py:62-84 | loading a fresh registry after any history gives the same listing and tokens, zero dampeners and no observation |
| `RegistryModel.RestartsAreInvisible` | packages/scheduler/src/scheduler/registry/node_registry.py:62-84 | removing the restarts from a history changes neither the facts nor any operation's outcome |
| `RegistryModel.DepartureIsComplete` | packages/scheduler/src/scheduler/registry/node_registry.py:170-188 | a node that left, by either route, has no entry in any map or table |
| `RegistryModel.DepartureLasts` | packages/scheduler/src/scheduler/registry/node_registry.py:170-188 | it has none after any later history, restarts included, in which nothing registers it, gives it a token or records mesh reachability or telemetry of it |
| `RegistryHistory.RunIsHistory` | packages/scheduler/src/scheduler/registry/node_registry.py:62-395 | after every history with restarts, the registry holds about each id - node record, heartbeat, 0.1 per selection since the last heartbeat, token, reachability, telemetry - just what the events about that id alone say |
| `RegistryHistory.RaisesIff` | packages/scheduler/src/scheduler/registry/node_registry.py:148-188 | just the operations on the wrong side of a registration raise, and an eviction reports whether the node was listed |
| `RegistryHistory.ListedByJoining` | packages/scheduler/src/scheduler/registry/node_registry.py:202-209 | the listing is in the order of registration after every history |
| `RegistryHeap.NodeRegistry.Load` | packages/scheduler/src/scheduler/registry/node_registry.py:62-84 | the row loop refills memory as the model's load |
| `RegistryHeap.NodeRegistry.LocalRegister` | packages/scheduler/src/scheduler/registry/node_registry.py:148-163 | raise on a known id; else memory and table both gain the node at the end |
| `RegistryHeap.NodeRegistry.LocalUnregister` | packages/scheduler/src/scheduler/registry/node_registry.py:170-188 | raise on an unknown id; else the node leaves every map and table |
| `RegistryHeap.NodeRegistry.LocalUnregisterNode` | packages/scheduler/src/scheduler/registry/node_registry.py:371-395 | reports whether the node was present; it leaves every map and table either way |
| `RegistryHeap.NodeRegistry.UpdateNode` | packages/scheduler/src/scheduler/registry/node_registry.py:216-231 | replaces the node in its place, in memory and table |
| `RegistryHeap.NodeRegistry.SetAvailableModels` | packages/scheduler/src/scheduler/registry/node_registry.py:233-264 | changes the catalogue and nothing else of the node, in memory and table |
| `RegistryHeap.NodeRegistry.ClearAll` | packages/scheduler/src/scheduler/registry/node_registry.py:278-288 | empties memory and tables |
| `RegistryHeap.NodeRegistry.SetNodeToken` | packages/scheduler/src/scheduler/registry/node_registry.py:103-116 | stores or forgets the token in both places; forgetting it also forgets mesh reachability |
| `RegistryHeap.NodeRegistry.UpdateHeartbeat` | packages/scheduler/src/scheduler/registry/node_registry.py:299-314 | raise on an unknown node; else the heartbeat is kept and the dampener reset |
| `RegistryHeap.NodeRegistry.BumpDampener` | packages/scheduler/src/scheduler/registry/node_registry.py:340-353 | raise on an unknown node; else the dampener rises by 0.1 |
| `RegistryHeap.SQLiteStore.SaveNode` | packages/scheduler/src/scheduler/persistence/sqlite_store.py:192-199 | an upsert keeps the row's place, a new row goes last |
| `RouterModel.RemovedIffSilentSinceRestart` | packages/scheduler/src/scheduler/core/zenoh_router.py:340-386 | in every run, restarts included, a node put to the stale check is removed if and only if none of its verified heartbeats since the last restart lies in the window before that check |
| `RouterModel.OnlyChecksRemove` | packages/scheduler/src/scheduler/core/zenoh_router.py:234-338 | no heartbeat, no other liveliness event and no restart removes a node |
| `RouterModel.OnlySilentNodesAreRemoved` | packages/scheduler/src/scheduler/core/zenoh_router.py:340-386 | a removed node was silent over the whole window if and only if no heartbeat forgotten by the last restart lies in it |
| `RouterModel.GraceSufficesIff` | packages/scheduler/src/scheduler/core/zenoh_router.py:340-396 | only nodes silent over the whole window are removed if and only if checks wait at least the stale threshold after a restart, or no heartbeat can ever verify |
| `RouterModel.RestartForgets` | packages/scheduler/src/scheduler/core/zenoh_router.py:72 | for every wait, a run in which a node proves itself, the router restarts, and a sweep or a lost liveliness token that much later removes the node |
| `RouterModel.LivelinessSparesTheFresh` | packages/scheduler/src/scheduler/core/zenoh_router.py:321-338 | no liveliness event removes a node with a verified heartbeat in the window since the last restart |
| `RouterModel.SweepLeavesOnlyFresh` | packages/scheduler/src/scheduler/core/zenoh_router.py:378-386 | after a sweep every listed node was listed before, and had a verified heartbeat since the last restart in the window before its check |
| `RouterModel.FreshnessIsExact` | packages/scheduler/src/scheduler/core/zenoh_router.py:234-282 | in every run the router takes a node for fresh if and only if a verified heartbeat of it since the last restart lies in the window |
| `RouterModel.GenuineLands` | packages/scheduler/src/scheduler/core/zenoh_router.py:234-282 | a sample opened with the token on file for the listed node it names and arrives for is stored, resets the dampener, marks reachability and restarts the window |
| `RouterModel.OthersAreIgnored` | packages/scheduler/src/scheduler/core/zenoh_router.py:202-282 | any other sample changes nothing at all |
| `RouterModel.RemovalIsComplete` | packages/scheduler/src/scheduler/core/zenoh_router.py:340-376 | a node the router removes is gone from every map and table |
| `RouterHeap.ZenohRouter.ProcessHeartbeat` | packages/scheduler/src/scheduler/core/zenoh_router.py:234-282 | only a heartbeat opened with the registered node's own token, and naming that node, changes anything |
| `RouterHeap.ZenohRouter.EvictStaleNode` | packages/scheduler/src/scheduler/core/zenoh_router.py:340-376 | evicts exactly a registered node that is not fresh, and says so |
| `RouterHeap.ZenohRouter.ProcessDeathrattle` | packages/scheduler/src/scheduler/core/zenoh_router.py:329-338 | a liveliness loss is no more than a stale check |
| `RouterHeap.ZenohRouter.SweepStaleNodes` | packages/scheduler/src/scheduler/core/zenoh_router.py:378-386 | the loop checks each listed node at its own clock reading |
| `RouterHeap.StartUp` | packages/scheduler/src/scheduler/main.py:88-118 | a new process over the same store is the model's restart: registry reloaded, nobody remembered |
| `PipelineModel.ValidConfigTiles` | packages/scheduler/src/scheduler/models/pipeline.py:238-275 | what the validator accepts is a tiling: each layer up to the last is held by exactly one stage, and no other layer by any |
| `PipelineFits.GreedyPlacesIff` | packages/scheduler/src/scheduler/core/engine.py:131-186 | greedy mode refuses a positive layer count if and only if no assignment of the layers to the ranked nodes fits every node's VRAM; and the reason it gives |
| `PipelineFits.GreedyPacks` | packages/scheduler/src/scheduler/core/engine.py:176-183 | the stages go to the nodes that can hold a layer, in rank order, and each but the last takes all its node can hold |
| `PipelineFits.CapacityIsMost` | packages/scheduler/src/scheduler/core/engine.py:141 | a node's capacity is all it can hold: that many layers fit its VRAM and one more does not; without a positive cost per layer it is the layer count |
| `PipelineModel.GreedyScheduleIff` | packages/scheduler/src/scheduler/core/engine.py:131-220 | when greedy mode succeeds its stages pass the validator, belong to this model, sit on distinct nodes within their VRAM, and use the shortest sufficient prefix of the nodes in order |
| `PipelineFits.EvenPlacesIff` | packages/scheduler/src/scheduler/core/engine.py:152-175 | fixed-stage mode succeeds if and only if the first n nodes that can hold a layer can hold their even shares of at least one layer, and gives them exactly those; a zero first field defers to the second |
| `PipelineModel.EvenScheduleIff` | packages/scheduler/src/scheduler/core/engine.py:152-206 | its pipeline then passes the validator, on distinct nodes within their VRAM, with sizes differing by at most one |
| `PipelineModel.LayersNeverRemain` | packages/scheduler/src/scheduler/core/engine.py:185-186 | the raise after the greedy loop is unreachable |
| `PipelineModel.GreedyIsShortest` | packages/scheduler/src/scheduler/core/engine.py:176-183 | without the last node used the layers would not fit |
| `PipelineModel.EvenSharesAll` | packages/scheduler/src/scheduler/core/engine.py:165-175 | the shares add up to the layers and differ by at most one |
| `PipelineModel.BuildIsValid` | packages/scheduler/src/scheduler/core/engine.py:188-206 | positive shares adding up to the layers build stages the validators accept |
| `PipelineFits.SplitPlacesIff` | packages/scheduler/src/scheduler/core/engine.py:262-321 | split mode refuses two layers or more if and only if no assignment of all but one to the ranked nodes fits; and the reason it gives |
| `PipelineModel.SplitScheduleIff` | packages/scheduler/src/scheduler/core/engine.py:281-416 | the later raises and the closing validation never fire; remote stages are placed within VRAM on distinct nodes |
| `PipelineModel.RestitchKeepsTiling` | packages/scheduler/src/scheduler/core/engine.py:418-463 | succeeds if and only if another active node exists; only the failed node's stages move, all of them, and the validator's verdict is unchanged |
| `PipelineFits.FirstActiveTakesOver` | packages/scheduler/src/scheduler/core/engine.py:439-461 | every stage of the failed node, and no other, goes to the first active node that has not failed |
| `PipelineModel.RestitchKeepsDistinctIff` | packages/scheduler/src/scheduler/core/engine.py:444-463 | stages on distinct nodes stay so if and only if the failed node held none or its replacement held none |
| `PipelineModel.RestitchFitsIff` | packages/scheduler/src/scheduler/core/engine.py:444-463 | where every node's VRAM held its layers it still does if and only if the replacement's holds its own and the failed node's together |
| `PipelineModel.RestitchDoublesUp` | packages/scheduler/src/scheduler/core/engine.py:438-463 | two stages on two nodes of which one fails end up on the survivor |
| `PipelineEngine.ChargedOnce` | packages/scheduler/src/scheduler/core/engine.py:208-213 | on distinct nodes each chosen node is charged one queue slot and 0.1 dampener, nobody else anything |
| `PipelineEngine.SchedulingEngine.Capacities` | packages/scheduler/src/scheduler/core/engine.py:131-144 | the loop keeps the nodes that hold at least one layer, and their total |
| `PipelineEngine.SchedulingEngine.PartitionGreedily` | packages/scheduler/src/scheduler/core/engine.py:176-183 | the loop computes the greedy partition and what remains |
| `PipelineEngine.SchedulingEngine.PartitionEvenly` | packages/scheduler/src/scheduler/core/engine.py:165-175 | the even partition, or a refusal exactly when some node is too small for its share |
| `PipelineEngine.SchedulingEngine.SchedulePipeline` | packages/scheduler/src/scheduler/core/engine.py:78-220 | the model's answer, and on success one charge for every node with a stage and none for any other |
| `PipelineEngine.SchedulingEngine.ScheduleSplitPipeline` | packages/scheduler/src/scheduler/core/engine.py:281-416 | the model's answer, and on success one charge per remote stage |
| `PipelineEngine.SchedulingEngine.RestitchPipeline` | packages/scheduler/src/scheduler/core/engine.py:438-463 | the loop computes the model's restitched pipeline |
| `Selection.Scheduler.SelectNode` | packages/scheduler/src/scheduler/scheduler/algorithm.py:39-88 | chooses the first eligible node of least score and raises its dampener by 0.1; refuses exactly when none is eligible, changing nothing |
| `Selection.Scheduler.ScoreEligible` | packages/scheduler/src/scheduler/scheduler/algorithm.py:42-75 | exactly the eligible nodes, in listing order, with their scores |
| `Selection.Pick` | packages/scheduler/src/scheduler/scheduler/algorithm.py:77-83 | none exactly when nobody is eligible, else the first of the least scores |
| `Selection.PickIsCandidate` | packages/scheduler/src/scheduler/scheduler/algorithm.py:42-83 | a request is refused exactly when no node serves the model, has a heartbeat and is not offline; else the first of the lowest-scored of these is chosen |
| `Selection.WhatLoadWeighs` | packages/scheduler/src/scheduler/scheduler/algorithm.py:63-74 | one queued request weighs 0.4, a fully used GPU 0.3, a fully used CPU 0.1 and fully used memory 0.2 |
| `Selection.IdleScoresNothing` | packages/scheduler/src/scheduler/scheduler/algorithm.py:63-74 | an idle node with all its memory free scores nothing but its dampener |
| `Selection.NoMemoryIsFullMemory` | packages/scheduler/src/scheduler/scheduler/algorithm.py:66 | a node without GPU memory counts as one whose memory is all in use |
| `Selection.LoadIsBalanced` | packages/scheduler/src/scheduler/scheduler/algorithm.py:81-88 | over every sequence of requests for any models between heartbeats, a node chosen n times, last for some model, satisfies base + 0.1 (n - 1) <= base_j + 0.1 n_j for every node j eligible for that model |
| `Selection.EqualNodesShareEqually` | packages/scheduler/src/scheduler/scheduler/algorithm.py:81-88 | eligible nodes that start level differ by at most one assignment of a model |
| `Selection.EveryRequestIsTaken` | packages/scheduler/src/scheduler/scheduler/algorithm.py:77-88 | assignments add up to the requests while somebody is eligible |
| `Selection.GreedyIsMinimax` | packages/scheduler/src/scheduler/scheduler/algorithm.py:81-88 | every other way of sharing the same requests gives some node a request at a score no lower than the highest greedy paid |
| `Economics.NeverRisesIff` | scripts/economics.py:105-129 | cost per token never rises with utilisation if and only if nothing is served or the standing charge is not negative |
| `Economics.BreakEvenIff` | scripts/economics.py:111-129 | breaking even is a linear condition: standing charge against earnings times utilisation |
| `Economics.BreakevenUtilisation` | scripts/economics.py:152-168 | raises exactly on a zero lifetime with tokens to serve; answers "never" exactly when full utilisation does not break even, which for a standing charge that is not negative means that no utilisation in (0, 1] does; else the result breaks even and lies above the least such point from 1e-6 on by at most (1 - 1e-6) / 2^200, whatever the charge |
| `Economics.ExactIsLeast` | scripts/economics.py:159-168 | the closed-form point breaks even and no smaller utilisation from 1e-6 on does |
| `Economics.WidthHalves` | scripts/economics.py:162-167 | after n halvings the interval is (1 - 1e-6) over 2^n |
| `Economics.FullUtilisationDecidesIff` | scripts/economics.py:160-161 | "never" is judged rightly from full utilisation if and only if the standing charge is not negative or a fully utilised year earns it back |
| `Economics.NeverIsWrong` | scripts/economics.py:160-161 | concrete assumptions on which the search answers "never" although a utilisation of 0.0001 breaks even |
| `Backpressure.WindowIsRespected` | experimental/node/transport.py:155-191 | whatever the ACK channel loses, repeats or reorders and whatever frames are lost, frames sent and not processed stay within the window |
| `Backpressure.FullWindowsOpenIff` | experimental/node/transport.py:376-423 | in every loss-free run a full window has a frame or a larger ACK in flight, if and only if the window has room for a frame |
| `Backpressure.NeverStrandedIff` | experimental/node/transport.py:134-182 | no loss-free run leaves the sender asleep with nothing on its way, if and only if ACK callbacks cannot run between the window check and the clear and the window is positive |
| `Backpressure.AckOpens` | experimental/node/transport.py:150-153 | an ACK that arrives is kept if it is the largest, rings the event and touches nothing else |
| `Backpressure.RungSenderSends` | experimental/node/transport.py:171-175 | a sleeping sender that was rung sends as soon as there is room, and one that was not stays asleep (`UnrungSenderSleeps`) |
| `Backpressure.AnyNumberGoesThrough` | experimental/node/transport.py:155-191 | with any positive window, any number of frames can be sent, processed and acknowledged |
| `Backpressure.SenderIsStranded` | experimental/node/transport.py:134-182 | for threaded callbacks with any window, and for any window without room, a loss-free run that ends with everything acknowledged and the sender asleep for good |
| `Backpressure.Drive` | experimental/node/transport.py:105-191 | router and receiver objects driven through any sequence of checks, waits, deliveries and losses are the model's run, so their counters keep within the window |
| `Backpressure.Play` | experimental/node/transport.py:134-182 | one event on the live objects is one step of the model; check, clear and ACK callback are separate |
| `MeshStreaming.PrefixIsNeverMistakenForWhole` | packages/scheduler/src/scheduler/core/node_dispatch.py:155-213 | for every in-order prefix of the node's replies: a clean end means the whole generation, a raise follows a prefix of it, HTTP is tried only before any token, and a complete delivery does end cleanly |
| `MeshStreaming.WalkPrefix` | packages/scheduler/src/scheduler/core/mesh_inference_client.py:88-138 | exactly what iteration yields and how it ends after the first k replies |
| `MeshStreaming.CleanEndIsWholeIff` | packages/node/src/node/clients/mesh_inference_server.py:204-220 | whatever sends fail, the dispatcher's stream ends cleanly if and only if the generation succeeded and its terminator arrived, and the text yielded is the whole text if and only if every lost chunk was empty |
| `MeshStreaming.DispatchOfArrived` | packages/scheduler/src/scheduler/core/node_dispatch.py:155-213 | for every generation and every set of failed sends: fall back, refuse, or stream exactly the chunks that arrived, and how that ends |
| `MeshStreaming.DeliveriesDecide` | packages/scheduler/src/scheduler/core/mesh_inference_client.py:281-315 | over every sequence of deliveries, transport errors, undecodable and empty replies included: the chunk texts before the first trouble or terminator are yielded, that alone decides how the stream ends, and only before any reply does HTTP take over |
| `MeshStreaming.CleanIffTerminated` | packages/scheduler/src/scheduler/core/mesh_inference_client.py:88-138 | a stream ends cleanly if and only if a terminator is delivered before any failure, transport error, undecodable reply or end, and the first reply was not empty |
| `MeshStreaming.QueueDecides` | packages/scheduler/src/scheduler/core/node_dispatch.py:155-213 | the same over every queue: a transport error or the end mark raises 502 after exactly the chunks before it, a reported failure raises its own status, and a late first reply falls back |
| `MeshStreaming.DroppedChunkGoesUnnoticed` | packages/node/src/node/clients/mesh_inference_server.py:215-220 | a concrete dropped chunk that the dispatcher serves as a complete answer |
| `MeshStreaming.ServeStream` | packages/node/src/node/clients/mesh_inference_server.py:153-213 | numbered chunks from zero, then the terminator or the error |
| `MeshStreaming.MeshStream.GetNext` | packages/scheduler/src/scheduler/core/mesh_inference_client.py:88-138 | each call yields the head of what the stream still has to give, or ends as that stream ends |
| `MeshStreaming.OpenInferenceStream` | packages/scheduler/src/scheduler/core/node_dispatch.py:155-213 | the dispatcher's loop: fall back, refuse, or yield the whole walk of the queue |
| `MeshStreaming.Drain` | packages/scheduler/src/scheduler/core/mesh_inference_client.py:281-315 | the queue holds the deliveries in order with trouble marked, and the end mark once, last |
| `MeshStreaming.DrainFillsQueue` | packages/scheduler/src/scheduler/core/mesh_inference_client.py:281-315 | well-formed replies reach the stream in order, none lost or added |
| `Sse.ChunkingIsInvisible` | packages/website/src/lib/sse.ts:24-28 | however a text is cut, the splitter emits the lines of the whole text and keeps its tail |
| `Sse.SplitIsExact` | packages/website/src/lib/sse.ts:24-28 | lines with their breaks, then the tail, are the buffer |
| `Sse.SplitIsClean` | packages/website/src/lib/sse.ts:24-28 | no break survives in a line or the tail |
| `Sse.ReadStream` | packages/website/src/app/playground/page.tsx:187-236 | the reader loop accumulates, chunk by chunk, the deltas up to the first terminator of that chunk |
| `Sse.ChunkingIsIrrelevantIff` | packages/website/src/app/playground/page.tsx:187-236 | the text shown is that before the first terminator for every way of cutting, if and only if no line after it carries text |
| `Sse.LetterByLetter` | packages/website/src/app/playground/page.tsx:187-236 | delivered one character at a time, every terminator is ignored |
| `SseLine.CutAfterDoneMatters` | packages/website/src/app/playground/page.tsx:203-209 | for every data line that carries text, a terminator followed by it is shown as that text or as nothing, depending on the cut |
| `SseLine.ChunkAfterDone` | packages/website/src/lib/sse.ts:48-63 | the same for the chunk `{"choices":[{"text":"x"}]}`, read as "x" |
| `SseLine.DoneIff` | packages/website/src/lib/sse.ts:48-55 | a line ends the stream if and only if it is a `data:` field holding `[DONE]`, blanks aside |
| `SseLine.DataLineMeans` | packages/website/src/lib/sse.ts:48-63 | a `data:` field holding a bare value, blanks aside, is the terminator if the value is `[DONE]` and else carries that value's text |
| `SseLine.OtherLinesSayNothing` | packages/website/src/lib/sse.ts:48-50 | a line that does not start, blanks aside, with the field neither ends the stream nor carries text |
| `SseLine.BlankIs` | packages/website/src/lib/sse.ts:49 | the blanks are the white space and line ends of `String.prototype.trim` |
| `SseLine.PaddingIsInvisible` | packages/website/src/lib/sse.ts:48-54 | blanks around a line, a carriage return among them, never change its meaning |
| `SseLine.TrimSplits` | packages/website/src/lib/sse.ts:49-54 | trimming removes blank padding on both sides and leaves a core without any |

## Left out

- Raft log safety beyond the two properties above: followers replace their log wholesale and commitment counts replicas of older-term entries.
- Applying committed entries to the registry, dynamic peers and their pruning, self-promotion without peers; membership is fixed with at least one peer, and consensus messages are well-formed with genuine senders.
- HMAC, SHA-256, AES-GCM, JSON and base64: arbitrary functions; collision-freedom is a premise only where a row says so.
- Floating-point rounding, infinities and NaN: reals throughout.
- Store write failures and unreadable rows; row ids appear only as order.
- Clock readings, the first-reply timeout and the parsed JSON of an SSE line: parameters.
- Node filtering and ranking before a pipeline is scheduled, and the default per-layer cost: the ranked list and the cost are inputs.
- Queue depths and dampeners after a failed schedule; the KV snapshot checksum before restitching.
- Nodes leaving between the steps of one selection: a selection is one atomic step.
- ProposeLocally: for a leader it stops where the caller starts to wait for the commit event; that wait is not part of this model.
- A limiter that restarts with full buckets: its runs are within one lifetime.
- An unfinished, empty reply queue, on which iteration would block: the drain loop always closes the queue.
- The HTTP stream, one-shot inference, in-flight tracking on the node, UTF-8 decoding of chunks.
- Boundary engines, quantisation, canaries, invites, metering, credits, wire framing, the rest of the website and the reporting scripts.
