# SNIP storage protocols, modelled and proved in Dafny

This project models the protocol logic of the SNIP node: how a V2 download asks assigned archives for a manifest and for
chunks, how responses are matched to requests when request ids may repeat, how inbound response channels are kept to the
behaviour they came from, how the outbound allow-list judges addresses, how held chunks are attested on chain and
re-attested when a file's assignment epoch changes, and three fast forms that must equal simple ones.

Each machine is given twice: as the loop or object the program has (a class or a method, updated in place), and as a
step function over values that the loop is proved to compute. The theorems are about the step functions, over every
sequence of events; network, chain and disk answers are inputs and may fail at any point.

`dafny verify dfyconfig.toml` checks everything.

## How to read it

| Files | What they are about |
|---|---|
| `Routing`, `ChunkFetch`, `ChunkFetchLoop` | the Public chunk phase: asking order, dispatch, event loop |
| `ChunkFetchEvents` | both chunk loops: what every event settles, and every way a fetch fails |
| `ChunkFetchSafety`, `ChunkFetchLiveness`, `Assembly` | what it keeps, when it can finish, what it writes |
| `PrivateFetch`, `PrivateFetchLiveness`, `PrivateManifest` | the Private twins, where they differ, and what that costs |
| `ManifestFanout`, `ManifestFanoutSafety` | the Public manifest fan-out |
| `ManifestLoops`, `ManifestFanoutEndings`, `ManifestFanoutOrphans`, `ManifestFanoutExhaustion` | both fan-outs: how they end, when a pull can be lost, and when they can find all archives failed |
| `Assignment`, `PeerDiscovery` | the assignment views of both sides, and waiting for archives |
| `Correlation`, `CorrelationClaims`, `CorrelationOwnership` | outbound requests: the table, its history, true owners over time |
| `InboundChannels`, `InboundHistory` | response channels of inbound requests: the table, and what it must be from the operations alone |
| `Cidr`, `Policy`, `PolicyVerdicts`, `NetworkPolicy` | address policy: networks, entries, the exact verdict, its use at run time |
| `Attestor`, `AttestConvergence` | attestation runs and what they add up to |
| `EpochWatcher`, `EpochWatcherLooks`, `EpochWatcherSafety` | re-attestation: what a look does, and the retry budget |
| `AccessSearch` | paged access-list search |

## What the proofs found

- Two missing chunks with the same content cannot both be fetched: answers are credited to the last chunk with the CID
  (`ChunkFetchLiveness.FetchCanCompleteIff`, `RepeatedChunkExample`). Neither can a chunk the assignment view does not list.
- The Private chunk loop does not ask for more after a good answer and does not hear failed requests. For a file in
  which every chunk has an archive and a content of its own (`Unhindered`), it keeps its places used if and only if it has
  one for every chunk (`PrivateFetch.NeverIdlesIff`). As long as every request is answered it can still
  complete exactly when the Public loop can (`PrivateFetchLiveness.PrivateCanFinishIff`); a reported failure changes
  nothing (`ReportedFailureIsIgnored`), and a request that is never answered costs the download
  (`PrivateFetch.DeadRequestNeverCompletes`). The Public loop asks on and hears failures; only a request of which neither
  an answer nor a failure arrives, as when the event queue is full, holds its chunk there as well
  (`ChunkFetchLiveness.UnheardRequestNeverCompletes`).
- Attribution of responses is right if and only if terminal events come sooner than the 300 s record lifetime
  (`CorrelationOwnership.SoundIff`). The comments at crates/sum-net/src/correlation.rs:66-70 require the
  poison lifetime of 600 s to exceed the request timeout; the shorter record lifetime is the bound that matters.
- Both manifest fan-outs rely on a peer being one archive only. With more than one place and a peer identified as two
  archives, a pull can be left that nobody can answer; otherwise none ever is (`ManifestFanoutOrphans.NeverOrphansIff`).
  Addresses come from the public key that Identify reports (crates/sum-net/src/swarm.rs:918-922 and
  crates/sum-net/src/identity.rs:104-113), so it takes a peer whose reported key changes, and nothing in the
  repository shows one.
- A manifest fetch can find all its archives failed, and so give up before its deadline, exactly while no pull waits for
  silent peers alone and every untried archive is one that some peer can be identified as: one archive that is away keeps
  it waiting (`ManifestFanoutExhaustion.CanExhaustIff`, `EveryFetchCanExhaustIff`). In the Private fan-out a peer whose
  failure was reported counts as silent, in the Public one not (`ReportedFailureHeardIff`).
- A relay base admitted for one peer and used for another gives a listen address the policy refuses
  (`Policy.MismatchedBaseIsRefused`).
- The epoch watcher keeps its budget if and only if the epochs its looks read never go back
  (`EpochWatcherSafety.BudgetIff`). Counted in the epochs the runs read for themselves, it holds if and only if no run
  reads a later epoch than its look (`OwnBudgetIff`); otherwise one epoch can be attested four times
  (`FourRunsAtOneEpoch`) and no more (`AttestedEpochsAreBounded`).
- The watcher compares a count of attested chunks with the number wanted, which can hide a lost chunk
  (`EpochWatcherSafety.CountTellsIff`, `LostChunkExample`).
- The paged search ends at entry 16,384 (`AccessSearch.AgreesWithWholeListIff`). While the list changes it can miss an entry
  that is listed at every read (`MovingEntryFoundIff`). An entry before that limit is found however entries in front of it
  are removed if and only if it is in the first page or no more of them go than stand before it in its page
  (`RemovalsHideIff`, `RemovalHidesExample`).

## Assumptions

- A manifest has passed validation (crates/sum-store/src/serve.rs:481-551), so chunk `i` is at position `i` and its CID is
  that of its hash; the per-chunk map is therefore a sequence.
- Hash and CID functions are parameters. Where a theorem needs it, it says that CIDs name one hash, that no
  other bytes have the hash of one of the file's chunks, or that the store is content addressed.
- The chain's assignment function is a parameter that meets `Assignment.TopOf`, which the ranking described in
  crates/sum-store/src/assignment_v2.rs is proved to meet.
- Where the node inverts the peer map and two peers claim one address, any inverse may be found.
- Which send fails, whether the store accepts a write, whether an event queue is full, and every RPC answer are inputs.
- Addresses, ids, nonces, times and heights are unbounded numbers.

## Model

| member | source | states |
|---|---|---|
| Routing.NextAssignedArchive | crates/sum-node/src/download_v2_routing.rs:190-203 | the earliest unasked identified archive while passing over is allowed, the one next in line otherwise; None exactly when nobody may be asked |
| Routing.MarkArchiveAsked | crates/sum-node/src/download_v2_routing.rs:205-216 | in place on the array: rotates the asked archive to the cursor and bumps it; everything outside the rotated range is untouched |
| Routing.AskingRefines | crates/sum-node/src/download_v2_routing.rs:173-216 | the rotation refines "append to the asked list, drop from the ranking": the prefix stays the asked archives in order, the rest stays the ranking without them |
| Routing.PickedOnce | crates/sum-node/src/download_v2_routing.rs:205-216 | a list of archives picked one after the other from what was left is free of repeats and within the ranking |
| Routing.NothingLeft | crates/sum-node/src/download_v2_routing.rs:205-216 | when nothing is left to pick, the picked archives are the ranking, each once |
| ChunkFetch.DueDispatch | crates/sum-node/src/download.rs:1290-1327 | a chunk is due a request exactly when it is unfinished, idle and has somebody it may be asked of, and then of the first such archive |
| ChunkFetch.DueFromSound | crates/sum-node/src/download.rs:1290-1327 | the selection lists only due requests, in manifest order, one per chunk |
| ChunkFetch.DueFromComplete | crates/sum-node/src/download.rs:1290-1327 | no chunk that could be asked is left out before the cap cuts in |
| ChunkFetch.CidToIndex | crates/sum-node/src/download.rs:1403-1407 | one index per CID, the last one |
| ChunkFetch.Settles | crates/sum-node/src/download.rs:1535-1546 | an answer settles a chunk only if it carries its CID and comes from the peer its request is out to |
| ChunkFetch.Job.Cap | crates/sum-node/src/download.rs:1297 | the number of places is what the operator set, and one if that is zero |
| ChunkFetchSafety.TryDispatchSaturates | crates/sum-node/src/download.rs:1413-1468 | after a dispatch that went through the cap holds and selecting again would send nothing; it stops the fetch only for a failed send |
| ChunkFetchSafety.ExhaustionIsTrue | crates/sum-node/src/download.rs:1647-1662 | "exhausted" is true: every assigned archive of the chunk was asked exactly once and each was rejected before the next was asked |
| ChunkFetchSafety.StepOk | crates/sum-node/src/download.rs:1484-1686 | one turn keeps ask histories, permutations, counters and store contents, and waits again only saturated and with no chunk lost |
| ChunkFetchSafety.EveryFetchIsSafe | crates/sum-node/src/download.rs:1366-1694 | the same for every whole fetch under every sequence of events, send failures and store failures |
| ChunkFetchLiveness.PullsAreBounded | crates/sum-node/src/download.rs:1413-1468 | a run makes no more pulls than there are (chunk, assigned archive) pairs |
| ChunkFetchLiveness.AskHistory | crates/sum-node/src/download.rs:1434-1466 | read off a reachable state: the first `next` entries are the archives asked in order, no archive twice, an in-flight archive is the last of them, the rest is the ranking without them |
| ChunkFetchLiveness.OwnsCidIffLastOfItsHash | crates/sum-node/src/download.rs:1403-1407 | answers for a chunk are credited to it if and only if no later chunk has the same content hash |
| ChunkFetchLiveness.DoomedNeverCompletes | crates/sum-node/src/download.rs:1403-1407 | a missing chunk whose CID belongs to a later one, or with no archive, keeps every run from completing |
| ChunkFetchLiveness.UnheardRequestNeverCompletes | crates/sum-node/src/download.rs:1484-1686 | a request of which neither answer nor failure arrives keeps its chunk, whatever archives are left |
| ChunkFetchLiveness.CanFinishIff | crates/sum-node/src/download.rs:1484-1686 | from a waiting state some continuation completes if and only if every unfinished chunk owns its CID and has an archive |
| ChunkFetchLiveness.FetchCanCompleteIff | crates/sum-node/src/download.rs:1366-1694 | the same for a whole fetch, in terms of what the caller holds: rankings and content hashes |
| ChunkFetchLiveness.RepeatedChunkExample | crates/sum-node/src/download.rs:1403-1407 | a valid, deliverable two-chunk file of one repeated byte whose fetch never completes |
| ChunkFetchLiveness.NoSilentStall | crates/sum-node/src/download.rs:1470-1490 | if all archives of an unfinished chunk are identified, something is in flight whenever the loop waits |
| ChunkFetchEvents.StepStopsIff | crates/sum-node/src/download.rs:1484-1686 | in either loop a turn ends the fetch with an error if and only if it has cause: a passed deadline names the first missing chunk, the end of the network, a refused write of a whole chunk names its CID, a bad answer or heard failure of a chunk with no archive left, and the send that fails names its chunk (twin: crates/sum-node/src/download_private.rs:942-1295) |
| ChunkFetchEvents.FetchFailsIff | crates/sum-node/src/download.rs:1366-1694 | over every whole fetch of either loop: it fails with an error if and only if its first dispatch meets a failing send or its loop takes an input that gives cause for that very error (twin: crates/sum-node/src/download_private.rs:942-1295) |
| ChunkFetchEvents.StepSettles | crates/sum-node/src/download.rs:1535-1662 | a turn settles the one request its event is about, if any, as delivered or rejected, then only pulls; the store gains the bytes of a kept chunk and nothing else (twin: crates/sum-node/src/download_private.rs:1140-1275) |
| ChunkFetchEvents.TakenKnows | crates/sum-node/src/download.rs:1516-1534 | in every state an input is taken in, the peers are those last identified and not gone since, and archives may be passed over exactly once the grace period was reported over |
| ChunkFetchLoop.SelectPublicChunkDispatches | crates/sum-node/src/download.rs:1290-1327 | the selection loop computes the specified selection |
| ChunkFetchLoop.PublicChunkFetch.constructor | crates/sum-node/src/download.rs:1376-1401 | chunks already in the store start out done, the others with their ranking and cursor 0 |
| ChunkFetchLoop.PublicChunkFetch.TryDispatch | crates/sum-node/src/download.rs:1413-1468 | the in-place dispatch leaves exactly the specified state and verdict, including after a failed send |
| ChunkFetchLoop.PublicChunkFetch.OnEvent | crates/sum-node/src/download.rs:1490-1686 | each event of the loop leaves exactly the specified state and verdict |
| ChunkFetchLoop.FetchV2PublicChunks | crates/sum-node/src/download.rs:1366-1694 | the whole imperative phase returns the specified result |
| Assembly.Assemble | crates/sum-node/src/download.rs:865-890 | writes the chunks in order and reports their total length, or names a missing chunk |
| Assembly.CompletedFetchHolds | crates/sum-node/src/download.rs:1572-1633 | after a completed fetch the store holds, for every chunk, bytes of the committed hash |
| Assembly.CompletedDownloadIsTheFile | crates/sum-node/src/download.rs:1366-1694 | end to end: what a completed fetch lets assembly write is the in-order concatenation the manifest commits to |
| Assembly.Download | crates/sum-node/src/download.rs:754-862 | every result by its cause: the empty file at once, the manifest not kept, the fetch's own error, a missing chunk named, or the file with its length and counters |
| Assembly.DownloadedIsTheFile | crates/sum-node/src/download.rs:754-862 | after a completed fetch no chunk is missing, what is written is the file the manifest commits to, and fetched plus skipped chunks are all of them |
| PrivateFetch.SharesStep | crates/sum-node/src/download_private.rs:1095-1275 | the Private machine takes the Public step except on a good answer and on a failed request |
| PrivateFetch.EveryPrivateFetchIsSafe | crates/sum-node/src/download_private.rs:942-1295 | ask histories, cap, no lost chunk and true exhaustion over every Private fetch |
| PrivateFetch.SaturatedAfterGoodAnswerIff | crates/sum-node/src/download_private.rs:1255-1258 | after a good answer the places are well used if and only if no chunk could be asked |
| PrivateFetch.NeverIdlesIff | crates/sum-node/src/download_private.rs:1255-1258 | for a download with nothing in its way: it never waits with a free place and an askable chunk if and only if the cap is at least the number of chunks |
| PrivateFetch.ScarceCapIdles | crates/sum-node/src/download_private.rs:1255-1258 | a run, for every such job with a smaller cap, that waits with a free place and an askable chunk |
| PrivateFetch.IdleFetchNeverCompletes | crates/sum-node/src/download_private.rs:1095-1275 | with nothing in flight, no event but peer news or the end of the grace period moves the fetch again |
| PrivateFetch.DeadRequestNeverCompletes | crates/sum-node/src/download_private.rs:1095-1275 | a request whose answer never comes keeps its chunk to the end, whatever failures are reported and archives are left |
| PrivateFetchLiveness.PrivateCanFinishIff | crates/sum-node/src/download_private.rs:1095-1275 | from a state it waits in some continuation completes if and only if every missing chunk owns its CID and has an archive |
| PrivateFetchLiveness.ReportedFailureIsIgnored | crates/sum-node/src/download_private.rs:1140-1275 | a run of every such job in which the failure of a request is reported and the request stays out, where the Public machine would reject it |
| PrivateFetch.OnPrivateEvent | crates/sum-node/src/download_private.rs:1140-1275 | the event arms, in place, do the specified step |
| PrivateFetch.FetchAllCiphertextChunks | crates/sum-node/src/download_private.rs:942-1295 | the loop returns the specified result |
| ManifestFanout.ManifestFetch.DispatchWave | crates/sum-node/src/download.rs:981-1043 | the in-place wave leaves exactly the specified state |
| ManifestFanout.ManifestFetch.OnEvent | crates/sum-node/src/download.rs:1106-1248 | each event leaves exactly the specified state and outcome |
| ManifestFanout.FetchV2PublicManifest | crates/sum-node/src/download.rs:951-1251 | the whole imperative fan-out returns the specified result |
| ManifestFanoutSafety.MoveKeepsHistories | crates/sum-node/src/download.rs:965-979 | every status is its archive's whole history: at most one pull each, and a rejection only after a pull |
| ManifestFanoutSafety.WaveSaturates | crates/sum-node/src/download.rs:995-1042 | after a wave the fan-out cap holds, and there is room only if no untried archive is identified |
| ManifestFanoutSafety.StepMovesForward | crates/sum-node/src/download.rs:965-972 | statuses only move Untried, Dispatched, Failed |
| ManifestFanoutSafety.AcceptedWasAsked | crates/sum-node/src/download.rs:1117-1150 | in one turn: an accepted manifest is the one the answer carried, from a peer whose single pull, as the archive it was last asked as, is still out |
| ManifestFanoutSafety.EveryAcceptedManifestWasAsked | crates/sum-node/src/download.rs:951-1251 | over every fetch: a manifest it returns was carried by an answer for its root from such a peer |
| ManifestFanoutSafety.EveryFetchIsSafe | crates/sum-node/src/download.rs:951-1251 | over every fan-out: the early exhaustion error occurs if and only if all archives failed, it reports them all as tried, resolvable plus unresolvable is the total, and a manifest is accepted only while a pull is out |
| ManifestFanout.FanoutCap | crates/sum-node/src/download.rs:978 | the operator's number where it fits, at least one while there are archives, at most one for each |
| ManifestFanoutEndings.FetchEndsIff | crates/sum-node/src/download.rs:1044-1251 | over every fetch of either fan-out: it returns a manifest if and only if, while it waits, it hears an answer for its root that carries it, from a peer whose pull as last asked is still out; it ends at its deadline and at the end of the network, with a report that counts the archives something was done about, those known and the others (twin: crates/sum-node/src/download_private.rs:735-906) |
| ManifestFanoutEndings.StepRejects | crates/sum-node/src/download.rs:1117-1248 | a turn rejects exactly the archive whose pull gets a bad answer for the root, or, in the Public loop, fails, and otherwise only sends (twin: crates/sum-node/src/download_private.rs:781-906) |
| ManifestFanoutEndings.FetchUsesPlaces | crates/sum-node/src/download.rs:995-1042 | a Public fetch over peers as they are known never waits with a place that an identified untried archive could have; a Private one does not while everybody known can be sent to (twin: crates/sum-node/src/download_private.rs:674-721) |
| ManifestFanoutEndings.TakenKnows | crates/sum-node/src/download.rs:1106-1116 | in every state an input is taken in, the peers are those last identified and not gone since |
| ManifestFanoutOrphans.SettleableIff | crates/sum-node/src/download.rs:1117-1248 | in either fan-out: some event can still fail an archive whose pull is out, and so free its place, if and only if a peer is down as last asked as it (twin: crates/sum-node/src/download_private.rs:586-906) |
| ManifestFanoutOrphans.NeverOrphansIff | crates/sum-node/src/download.rs:981-1043 | in either fan-out, given which peers can be identified as which addresses: no fetch ever leaves a pull that nobody can answer if and only if it has one place or no peer can be two archives (twin: crates/sum-node/src/download_private.rs:586-906) |
| ManifestFanoutOrphans.ReidentifiedPeerOrphans | crates/sum-node/src/download.rs:1012-1030 | with two places and a peer identified as one archive and then as another, a run of either fan-out that leaves the first pull so (twin: crates/sum-node/src/download_private.rs:586-906) |
| ManifestFanoutOrphans.StuckPullsStay | crates/sum-node/src/download_private.rs:781-906 | in either fan-out: a pull that only silent peers are down for, or none, holds its place to the end of every run, which then cannot report its archives exhausted (twin: crates/sum-node/src/download.rs:951-1251) |
| PrivateManifest.ComputeManifestFanout | crates/sum-node/src/download_private.rs:1434-1455 | at most three, at most the archives there are, zero only for none, and the operator's number when it fits |
| PrivateManifest.SelectTargets | crates/sum-node/src/download_private.rs:1472-1509 | the selection loop computes the specified targets |
| PrivateManifest.TwinWaves | crates/sum-node/src/download_private.rs:674-721 | when every selected request can be queued, the Private wave equals the Public one |
| PrivateManifest.PrivateWaveSaturatesIff | crates/sum-node/src/download_private.rs:674-721 | a Private wave leaves no place free that an untried identified archive could take if and only if every selected request can be queued or nobody else is left |
| PrivateManifest.EveryPrivateManifestFetchIsSafe | crates/sum-node/src/download_private.rs:586-906 | histories, cap, outcome and report are as for the Public fan-out, with at most three pulls out |
| ManifestFanoutExhaustion.CanExhaustIff | crates/sum-node/src/download_private.rs:781-906 | in either fan-out, given which peers can be identified as which addresses and some of them silent from here on: some continuation still reports the archives exhausted if and only if no pull that is out waits for silent peers alone and every untried archive is one that some peer can be (twin: crates/sum-node/src/download.rs:951-1251) |
| ManifestFanoutExhaustion.EveryFetchCanExhaustIff | crates/sum-node/src/download_private.rs:586-906 | the same of every state a fetch of either fan-out can wait in, before and after with the same identities: if and only if every archive is one that some peer can be, no peer that may fall silent can be an archive, and there is one place or no peer can be two archives (twin: crates/sum-node/src/download.rs:951-1251) |
| ManifestFanoutExhaustion.ReportedFailureHeardIff | crates/sum-node/src/download_private.rs:781-906 | a run, for every list of archives, in which a failure is reported and the Private pull stays out for good unless its peer speaks again, where the Public one has failed the archive (twin: crates/sum-node/src/download.rs:951-1251) |
| Assignment.RankedIsPermutation | crates/sum-store/src/assignment_v2.rs:9-13 | ranking lists every candidate exactly once |
| Assignment.RankedIsInOrder | crates/sum-store/src/assignment_v2.rs:9-13 | by score, then by address |
| Assignment.AssignedIsTop | crates/sum-store/src/assignment_v2.rs:59-77 | distinct members of the snapshot, the replication factor of them or all |
| Assignment.ReadSnapshot | crates/sum-node/src/download_v2_routing.rs:107-121 | only eligible archives are read, in order, up to the first unreadable address |
| Assignment.BuildV2AssignmentView | crates/sum-node/src/download_v2_routing.rs:99-156 | each error exactly when its cause holds, in order, an unreadable address naming the first; otherwise every chunk's list over the eligible archives and their union |
| Assignment.ViewGivesRankings | crates/sum-node/src/download_v2_routing.rs:28-44 | every chunk has somebody to ask and nobody twice, and the union is exactly the archives some chunk lists |
| Assignment.ViewTells | crates/sum-node/src/download_v2_routing.rs:99-156 | read off any result: which records and parameters each error means, and that every chunk lists, without repeats, addresses of active archive records, as many as the replication factor or all |
| PeerDiscovery.RequiredArchives | crates/sum-node/src/peer_discovery.rs:179-201 | every early exit returns the plain union of the per-chunk assignments |
| PeerDiscovery.ArchiveDiscovery.Observe | crates/sum-node/src/peer_discovery.rs:130-137 | the live map holds, for each peer, its last identity since it connected; changes are reported |
| PeerDiscovery.ArchiveDiscovery.GetStatus | crates/sum-node/src/peer_discovery.rs:146-170 | complete exactly when every required archive is some connected peer's identity, even past the deadline; timed out exactly from the deadline on, naming who is missing |
| Correlation.AnswersBothIff | crates/sum-net/src/correlation.rs:229-305 | some response answers two requests if and only if they have the same subject |
| Correlation.AnswersIffCanonical | crates/sum-net/src/correlation.rs:229-305 | one response answers a request; any other is refused for its kind, else for its CID or root, else for its chunk |
| Correlation.LabelNamesKind | crates/sum-net/src/correlation.rs:213-226 | two kinds of request go by one label only if they are one kind |
| Correlation.FromV1IsFaithful | crates/sum-net/src/correlation.rs:161-177 | what is kept of a V1 request gives back its CID, its kind and, for a manifest pull, the root |
| Correlation.FromV2IsFaithful | crates/sum-net/src/correlation.rs:179-198 | what is kept of two V2 requests has an answer in common if and only if they put the same question, whatever else they carry |
| Correlation.OutboundTracker.Record | crates/sum-net/src/correlation.rs:669-712 | files, poisons or refuses, leaving exactly the specified table |
| Correlation.OutboundTracker.CorrelateResponse | crates/sum-net/src/correlation.rs:722-757 | spends a pending record whatever the verdict, leaves a poisoned one, and answers as specified |
| Correlation.OutboundTracker.OnFailure | crates/sum-net/src/correlation.rs:759-769 | spends a pending record and returns its identity |
| Correlation.OutboundTracker.Reap | crates/sum-net/src/correlation.rs:775-783 | keeps exactly the records and poisons young enough, and counts the rest |
| CorrelationClaims.TableRefinesClaims | crates/sum-net/src/correlation.rs:669-783 | a slot is vacant, pending or poisoned exactly as its key has no, one or several claims since it was last vacant; a poison keeps the first and latest label and the latest time |
| CorrelationClaims.ClaimsKeepToTheirProtocol | crates/sum-net/src/correlation.rs:675-682 | only requests of the domain's own protocol hold its keys |
| CorrelationClaims.AcceptedIff | crates/sum-net/src/correlation.rs:722-757 | a response is accepted if and only if one request alone claims its id, was sent to the answering peer, and is answered by it; its identity is what is handed on |
| CorrelationClaims.RejectedIff | crates/sum-net/src/correlation.rs:722-757 | why a response is refused, by the claims on its id: none, several (naming the first and the latest), another peer, or what does not fit |
| CorrelationClaims.FailureIff | crates/sum-net/src/correlation.rs:759-769 | a failure is answered with the identity of the one request that claims its id, and as unknown or poisoned exactly when none or several do |
| CorrelationClaims.RecordedIff | crates/sum-net/src/correlation.rs:669-712 | filing is refused for another protocol's request, done on an unclaimed key, and a collision names the first claim and the new one |
| CorrelationClaims.RecordsAreConserved | crates/sum-net/src/correlation.rs:669-783 | after any history each filed record is pending or has met a fate (accepted, refused, failed, reaped, poisoned), never both |
| CorrelationClaims.FatesAreFinal | crates/sum-net/src/correlation.rs:669-783 | a fate never changes |
| CorrelationClaims.DomainsDoNotInterfere | crates/sum-net/src/correlation.rs:80-123 | dropping the other domain's operations changes neither this domain's table nor its results |
| CorrelationOwnership.ReaperKeepsHeld | crates/sum-net/src/correlation.rs:775-783 | the reaper frees no slot that a terminal event can still come for |
| CorrelationOwnership.SurfacedIff | crates/sum-net/src/swarm.rs:739-864 | an answer is surfaced if and only if its key is not poisoned, it comes from the peer asked, it answers what was asked, and the event queue has room |
| CorrelationOwnership.FailureSurfacedIff | crates/sum-net/src/swarm.rs:801-864 | a failure is surfaced as its request's own if and only if its key is not poisoned, it names the peer asked, and the event queue has room |
| CorrelationOwnership.SoundIff | crates/sum-net/src/correlation.rs:57-71 | over all timed runs with reissued ids, whatever is surfaced is about the request that caused it if and only if terminal events come within less than the record lifetime |
| CorrelationOwnership.ConfiguredSwarmIsSound | crates/sum-net/src/behaviour.rs:17 | with the configured 120 s request timeout every run is sound |
| CorrelationOwnership.LateEventsAreMisattributed | crates/sum-net/src/correlation.rs:63-71 | a run that goes wrong for any longer latency |
| CorrelationOwnership.AloneIsAnswered | crates/sum-net/src/swarm.rs:739-800 | a request whose id was never issued to another is surfaced as itself when its answer comes, if and only if the event queue has room |
| CorrelationOwnership.AloneFailureIsHeard | crates/sum-net/src/swarm.rs:801-864 | a request whose id was never issued to another has its failure surfaced as its own, if and only if the event queue has room |
| InboundChannels.ShardChannels.OnInboundRequest | crates/sum-net/src/swarm.rs:677-737 | files the channel under a new id with its domain, or counts a mismatch; a full event queue unfiles it |
| InboundChannels.ShardChannels.TakeChannel | crates/sum-net/src/swarm.rs:168-183 | takes the channel only for its own domain; otherwise the table is unchanged |
| InboundChannels.ShardChannels.SendShardResponse | crates/sum-net/src/swarm.rs:480-541 | answers on the filed channel, spends it when the peer has closed it, or counts exactly one refusal |
| InboundChannels.ShardChannels.ReapOrphanedChannels | crates/sum-net/src/swarm.rs:561-572 | drops exactly the channels older than the timeout |
| InboundChannels.EveryChannelIsAccounted | crates/sum-net/src/swarm.rs:480-572 | after any run every id was filed once and is pending or ended, never both; answers went out on the filed channel and domain; attempts equal channels taken plus refusals |
| InboundChannels.HistoryIsFinal | crates/sum-net/src/swarm.rs:677-737 | no id is reused and no channel answered twice |
| InboundHistory.PendingIff | crates/sum-net/src/swarm.rs:677-737 | from the operations alone: an id is pending, as it was filed, if and only if a request of the right version brought it with room to announce it, and since then no answer of its own behaviour was attempted and no reap came more than 120 s after it |
| InboundHistory.FateIff | crates/sum-net/src/swarm.rs:480-572 | and its fate is the one its first ending gave it: dropped exactly when there was no room, answered on its own behaviour and channel, closed beforehand, or reaped |
| InboundHistory.OpenChannelAnswers | crates/sum-net/src/swarm.rs:480-541 | an announced request can be answered on the channel it brought until then, and nothing is refused |
| InboundHistory.RefusalsTell | crates/sum-net/src/swarm.rs:168-183 | each refusal counter counts the operations refused for its reason |
| Cidr.MaskClearsHostBits | crates/sum-net/src/policy.rs:286-305 | the shifted word of ones and the bitwise conjunction clear exactly the host bits, for every width and prefix including 0 |
| Cidr.MaskIsIdempotent | crates/sum-net/src/policy.rs:286-305 | masking twice is masking once |
| Cidr.ContainsIffInInterval | crates/sum-net/src/policy.rs:307-315 | a normalised network contains exactly the hosts of its interval, of its own family or as an IPv4-mapped address |
| Cidr.LongerPrefixIsNarrower | crates/sum-net/src/policy.rs:286-315 | a longer prefix accepts a subset |
| Cidr.MappedHostsAsIpv6Network | crates/sum-net/src/policy.rs:307-315 | an IPv4 network treats an IPv6 host as the 96-bits-longer mapped IPv6 network does, and that network is a valid one |
| Policy.VerdictsAreOrdered | crates/sum-net/src/policy.rs:343-369 | allowed of an unknown peer implies allowed of any; allowed of some peer implies not refused while deferred |
| Policy.DeferredIffSomePeer | crates/sum-net/src/policy.rs:343-369 | the deferred answer is yes if and only if some peer would be allowed |
| Policy.RelayPartDecides | crates/sum-net/src/policy.rs:415-433 | nothing after the first circuit component and no peer hint changes a verdict |
| Policy.ParsedEntryReadsBack | crates/sum-net/src/policy.rs:216-272 | an accepted entry reads back as the listed address and can judge one |
| PolicyVerdicts.VerdictIff | crates/sum-net/src/policy.rs:343-433 | an address is admitted if and only if it splits into a body that begins with a host and names no peer, an optional final peer and what follows the first circuit, and some entry admits the body: a network whose interval holds the host, of its family or IPv4-mapped, or a prefix whose components it has and whose pin it meets |
| PolicyVerdicts.NetworksVerdict | crates/sum-net/src/policy.rs:307-350 | over a list of networks a direct address is allowed exactly when its host lies in one of them, whoever the peer |
| PolicyVerdicts.OtherHostIsRefused | crates/sum-net/src/policy.rs:350-369 | a prefix entry refuses every address that lacks or changes one of its components |
| PolicyVerdicts.DnsEqIff | crates/sum-net/src/policy.rs:317-321 | two names are equal exactly when they differ at most in ASCII case and trailing dots |
| PolicyVerdicts.ParsedNetworkIsNormal | crates/sum-net/src/policy.rs:187-213 | a network is accepted exactly when its length fits, is stored with its host bits cleared, and contains the address given |
| PolicyVerdicts.ParsesIff | crates/sum-net/src/policy.rs:216-272 | the addresses accepted as entries are exactly a host, optionally a port that is not zero, and optionally a peer |
| Policy.ListedIsAllowed | crates/sum-net/src/policy.rs:216-272 | a listed address, and whatever extends it before its final peer, is allowed |
| Policy.BuildCircuitListenAddr | crates/sum-net/src/nat.rs:350-369 | the loops drop the peers and append the relay and the circuit |
| Policy.CircuitListenAddrIsIdempotent | crates/sum-net/src/nat.rs:350-354 | building again changes nothing |
| Policy.CircuitListenVerdict | crates/sum-net/src/nat.rs:355-369 | the verdict on a built address is the verdict on the base without its peers, for the relay |
| Policy.AdmittedBaseGivesAllowedCircuit | crates/sum-net/src/nat.rs:355-369 | an admitted base that names no peer or the relay gives an allowed listen address |
| Policy.MismatchedBaseIsRefused | crates/sum-net/src/nat.rs:355-369 | for every listed host pinned to one peer, the base naming that peer is admitted and the listen address built from it for another relay is refused |
| Policy.AdmittedListenAddrs | crates/sum-net/src/swarm.rs:1216-1226 | exactly the advertised addresses the policy admits for the peer |
| Policy.PickDirectDialCandidate | crates/sum-net/src/swarm.rs:1439-1461 | the first dialable non-relayed address, with the peer named; None exactly when there is none |
| Policy.DirectDialCandidate | crates/sum-net/src/swarm.rs:1439-1461 | whatever is picked from admitted addresses passes the transport check |
| PolicyVerdicts.CandidateIff | crates/sum-net/src/swarm.rs:1439-1461 | a candidate for a direct dial is dialable and has no circuit component |
| PolicyVerdicts.DialableIff | crates/sum-net/src/swarm.rs:1364-1437 | the first host of an address settles whether it is dialable: names always are, IPs by the next two rows |
| PolicyVerdicts.DialableIp4Iff | crates/sum-net/src/swarm.rs:1367-1396 | IPv4: exactly outside the loopback, link-local, private and carrier-grade intervals, and not unspecified |
| PolicyVerdicts.DialableIp6Iff | crates/sum-net/src/swarm.rs:1397-1420 | IPv6: exactly outside fe80::/10 and fc00::/7, and neither loopback nor unspecified |
| NetworkPolicy.PendingInboundIsNotStricter | crates/sum-net/src/gate.rs:148-180 | the check before the handshake never refuses what the one after it keeps |
| NetworkPolicy.EstablishedIsNotStricter | crates/sum-net/src/gate.rs:193-206 | a dial the transport check passed is never refused once established |
| PolicyVerdicts.InboundJudgedIff | crates/sum-net/src/policy.rs:804-822 | the address a refusal is recorded under is the one the verdict was about |
| PolicyVerdicts.JudgesIff | crates/sum-net/src/policy.rs:727-742 | a policy without a list lets everything pass, one with a list what the verdict on the address for its peer says |
| PolicyVerdicts.InboundVerdictIff | crates/sum-net/src/policy.rs:793-824 | a connection through a relay is judged by the circuit listened on, whoever the peer; a direct one as its peer's once known, and before that, if it names none, exactly when somebody would be allowed |
| NetworkPolicy.NetPolicy.TotalRefusals | crates/sum-net/src/policy.rs:528-540 | the counters add up to the refusals made |
| NetworkPolicy.NetPolicy.Judge | crates/sum-net/src/policy.rs:727-742 | an address is admitted, or exactly one refusal of it is recorded |
| NetworkPolicy.NetPolicy.CheckTransportDial | crates/sum-net/src/policy.rs:773-791 | refuses exactly what the list does not allow without a peer, under the dial's own label |
| NetworkPolicy.NetPolicy.InboundAllowed | crates/sum-net/src/policy.rs:793-824 | a relayed connection is judged by the circuit listened on, a direct one by its remote address |
| NetworkPolicy.NetPolicy.OutboundEstablishedAllowed | crates/sum-net/src/policy.rs:826-828 | judges the connection that was made under its actual peer, recording a refusal exactly when the list does not allow it |
| NetworkPolicy.NetPolicy.LabelDial | crates/sum-net/src/policy.rs:830-840 | a full table is forgotten before the new label is added; the step of `LabelReachesItsDial` |
| NetworkPolicy.NetPolicy.BeginDial | crates/sum-net/src/policy.rs:842-849 | takes the dial's own label, Other when there is none; the step of `LabelReachesItsDial` |
| NetworkPolicy.NetPolicy.ForgetDial | crates/sum-net/src/policy.rs:851-857 | drops the label of a dial that ended; the step of `LabelReachesItsDial` |
| NetworkPolicy.LabelsTell | crates/sum-net/src/policy.rs:830-857 | over any operations that fit the cap the table holds each dial's last label, none once it began or was forgotten, and the current source is that of the dial begun last |
| NetworkPolicy.LabelReachesItsDial | crates/sum-net/src/policy.rs:830-857 | over any operations on other dials that fit the cap, a label lasts until its dial begins and is current then |
| Attestor.ToAttestIsSortedIntersection | crates/sum-node/src/assignment_attestor.rs:302-313 | the set to attest is assigned and held chunks, ascending, without repeats |
| Attestor.Attest | crates/sum-node/src/assignment_attestor.rs:286-427 | the loop returns the slices in order with consecutive nonces, each finalized, and an error about the next slice and nonce or none |
| Attestor.RunIsPrefix | crates/sum-node/src/assignment_attestor.rs:195-241 | the batches concatenate to a prefix of the set, its length is the attested count, and there is no error if and only if it is all of it |
| Attestor.BatchSizes | crates/sum-node/src/assignment_attestor.rs:343-349 | every batch has 1 to cap indices and all but the last exactly cap |
| Attestor.FailedSliceFollows | crates/sum-node/src/assignment_attestor.rs:362-412 | the failed slice follows the batches without a gap |
| Attestor.SummaryNonces | crates/sum-node/src/assignment_attestor.rs:213-241 | last finalized and last attempted nonce in terms of the start and the number of batches |
| Attestor.StopsAtFirstFailure | crates/sum-node/src/assignment_attestor.rs:22-31 | a run stops at the first slice that does not finalize and nowhere else |
| Attestor.SummaryTellsReplies | crates/sum-node/src/assignment_attestor.rs:343-427 | every batch carries what its transaction was finalized with, a refused one is a submit error, one not finalized a wait error with its reason, a zero cap bad parameters, and no error means every slice was finalized |
| Attestor.RunIsDetermined | crates/sum-node/src/assignment_attestor.rs:286-427 | the specification admits one summary only |
| AttestConvergence.CoveredIff | crates/sum-node/src/assignment_attestor.rs:22-31 | a bit is set after any runs if and only if it was before or some run reached it |
| AttestConvergence.NeverOutsideTheAssignment | crates/sum-node/src/assignment_attestor.rs:33-40 | no run sets a bit outside assignment and held set |
| AttestConvergence.RestartedRunsFinishIff | crates/sum-node/src/inbound_v2.rs:1175-1255 | runs that start over from the same set cover it if and only if it was covered before or a single one reached past the last uncovered chunk |
| AttestConvergence.RemainderIsTheRemainingHeld | crates/sum-node/src/assignment_attestor.rs:26-31 | attesting the held chunks the chain lacks is attesting the remainder of the original set |
| AttestConvergence.ResumedRunsAddUp | crates/sum-node/src/assignment_attestor.rs:26-31 | runs resumed on the remainder cover it without overlap: what they reached plus what is left is what there was |
| AttestConvergence.ProductiveRunsFinish | crates/sum-node/src/assignment_attestor.rs:26-31 | if every resumed run finalizes a batch, as many runs as there are chunks left finish |
| EpochWatcher.Worker.Check | crates/sum-node/src/epoch_watcher.rs:211-289 | one look, in place: every early return and error leaves the specified memory and report |
| EpochWatcher.Worker.RunTick | crates/sum-node/src/epoch_watcher.rs:194-209 | a tick leaves the specified memory and report |
| EpochWatcher.TicksCompose | crates/sum-node/src/epoch_watcher.rs:194-209 | two ticks in a row are one longer tick, memory and reports alike |
| EpochWatcherLooks.LookTells | crates/sum-node/src/epoch_watcher.rs:211-289 | what a look starts and remembers: a run exactly for an attestable epoch neither settled nor out of runs, with chunks held, and at first sight only if the chain counts too few; settled when there is nothing to attest |
| EpochWatcherLooks.LookReports | crates/sum-node/src/epoch_watcher.rs:194-289 | what it reports: counted when the chain has the file, attested for a full run, and to be tried again exactly when something was unavailable, not ready, or not full |
| EpochWatcherLooks.TickTells | crates/sum-node/src/epoch_watcher.rs:194-209 | a tick reports its looks in order: those counted, the full attestations, and the files to try again |
| EpochWatcherLooks.TickReportsIff | crates/sum-node/src/epoch_watcher.rs:194-209 | a tick lists a file for another try, or as attested for an epoch, exactly when some look of it did |
| EpochWatcherSafety.FilesDoNotInterfere | crates/sum-node/src/epoch_watcher.rs:194-289 | the watcher seen from one file is that file's run alone |
| EpochWatcherSafety.BudgetIff | crates/sum-node/src/epoch_watcher.rs:231-289 | whatever fails, each (file, epoch) gets at most three runs, none after a full success, and no superseded epoch is attested again, if and only if the epochs read never go back |
| EpochWatcherSafety.AttestedEpochsAreBounded | crates/sum-node/src/epoch_watcher.rs:251-289 | in the epochs the runs read for themselves at most four runs attest one, and they never go back |
| EpochWatcherSafety.FourRunsAtOneEpoch | crates/sum-node/src/epoch_watcher.rs:251-289 | the bound is met: for every look and later epoch read by its run, four runs that attest that epoch |
| EpochWatcherSafety.OwnBudgetIff | crates/sum-node/src/epoch_watcher.rs:251-289 | at most three runs attest an epoch, and none after a full one, over all runs of the watcher if and only if no run can read a later epoch than its look |
| EpochWatcherSafety.EpochMovesMidRunExample | crates/sum-node/src/epoch_watcher.rs:263-289 | an epoch attested in full under the old epoch's name and then once more under its own |
| EpochWatcherSafety.CountTellsIff | crates/sum-node/src/epoch_watcher.rs:291-330 | for every attested set of the count read: the count says whether everything wanted is attested if and only if it is, or fewer chunks are attested and no longer wanted than wanted and not attested |
| EpochWatcherSafety.LostChunkExample | crates/sum-node/src/epoch_watcher.rs:291-330 | a file marked handled whose one held assigned chunk is not attested, because another one was lost |
| AccessSearch.FindAccessEntry | crates/sum-node/src/access.rs:579-615 | the owner's loop computes the specified search |
| AccessSearch.FindMyAccessEntry | crates/sum-node/src/download_private.rs:210-251 | the reader's loop computes the same one |
| AccessSearch.SearchEndsIff | crates/sum-node/src/access.rs:579-615 | over any page answers: the outcome is that of the last page read, an error if and only if that page failed, so an error is never "not found" |
| AccessSearch.SearchIsLinear | crates/sum-node/src/access.rs:579-615 | over a list that holds still it is the linear search of the first 16,384 entries |
| AccessSearch.AgreesWithWholeListIff | crates/sum-node/src/access.rs:69-72 | it agrees with the search of the whole list if and only if the first match, if any, is among them |
| AccessSearch.MovingEntryFoundIff | crates/sum-node/src/access.rs:579-615 | an entry listed once at every read, wherever it moves, is found if and only if some page is read while it is in it and every page before was full and read while it was elsewhere; it is the entry returned, and the search never fails |
| AccessSearch.ForwardEntryFoundIff | crates/sum-node/src/access.rs:579-615 | if the entry never moves back, it is found if and only if it is in the page of some read |
| AccessSearch.RemovalsHideIff | crates/sum-node/src/access.rs:579-615 | an entry at a given place is found over every run with at most so many removals in front of it if and only if it is in the first page, or before the page limit and the removals are no more than the entries in front of it in its page |
| AccessSearch.AppendsHideNothing | crates/sum-node/src/access.rs:594-613 | over a list that only grows behind, an entry that was there is found if and only if it is before the page limit |
| AccessSearch.RemovalHidesExample | crates/sum-node/src/access.rs:594-613 | the smallest case: one removal in front hides the first entry of the second page |

## Left out

- Attestor.Attest: does not model the end of the 64-bit nonce range, because no account reaches it.
- PrivateFetch.FetchAllCiphertextChunks: keeps ciphertext under its CID and carries the Public machine's counters along; decryption is not modelled. The snapshot and assignment errors before the loop are those of `Assignment.BuildV2AssignmentView` and not modelled again.
- PrivateFetch.EveryPrivateFetchIsSafe: does not claim that places are kept full, because the code does not keep them so; `NeverIdlesIff` says when it does.
- ManifestFanout.FetchV2PublicManifest: the reason string of the report and the CBOR decoding of a manifest are not modelled; a manifest answer is good or bad.
- Assembly.Download: keeping the manifest in the local index is one yes or no; writing the output file does not fail; the assignment view and the manifest fetch before it are `Assignment.BuildV2AssignmentView` and `ManifestFanout.FetchV2PublicManifest`.
- ChunkFetchEvents.FetchFailsIff: the Private loop also names the first missing chunk when the network ends; the model's error does not.
- The set of peers contacted, which a download reports: it decides nothing.
- The root check inside file assembly: a mismatch is only logged, so nothing depends on it.
- libp2p, gossipsub, Kademlia, mDNS, AutoNAT, JSON-RPC and the command line: events and answers are inputs.
- Encryption, key wrapping and the wire codec: wrappers over libraries.
- The V1 download loop: it depends on the fetch manager and has no assignment.
- Text parsing of multiaddresses, IP addresses and allow-list entries: addresses are component sequences; the structure checks of a parsed entry and the normal form of a network are modelled.
- Log lines, metrics, warning texts and the audit channel's capacity: they decide nothing.
- Sharing between threads: locks and channels are taken as giving each handler the state to itself.
- The repeated warning about archives not yet identified: it only logs.
