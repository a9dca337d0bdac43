# A verified model of the Tusk3D backend and its pure frontend logic

Tusk3D lets creators forge, tag, recolour and search 3D assets, pay for generations in SUI, and chat
with a prompt copilot. The parts modelled here are the ones where the code makes an exact promise
that no single body shows:

- **Geometry** (`Glb`): merging meshes keeps the parts' edges apart, so a merged mesh is manifold
  exactly when every part is. A merge past 65536 vertices wraps, and the model wraps with it.
- **Bounded memory** (`RateLimit`, `NonceAuth`, `GenerateJobs` over `OrderedMap` and `BoundedMap`): JavaScript
  maps with insertion order, swept and evicted in place. Each bounded store answers as a store that
  forgets nothing, as long as a stated bound on the load holds.
- **Money and quotas** (`PaymentVerifier`, `QuotaStore`, `GeminiQuota`, `QuotaProtocol`, `Preflight`):
  protocols cut at every await and proved over all interleavings, timeouts and restarts.
- **Replay** (`IntegrationIndexer`): pages read again after a failure leave the very map that one clean
  pass over the event log leaves, insertion order included.
- **Recolouring** (`CanvasMode`, `MaterialSwap`): snapshots and swaps on objects that may be shared.
- **Conversation** (`CopilotTurn`, `RiffCopilot`): the hook's sequence guards composed with the
  server's turn decision and its quota gate.
- **Codec and ranking** (`Json`, `JsonGrammar`, `MemoryCodec`, `StableSort`, `SearchRanking`): a round
  trip through a JSON reader that is proved to accept exactly the grammar of RFC 8259, and an ordering
  that hides nothing.

Code that changes state is a class or a loop here too; each such method is proved equal to a function
of the old state, and the laws are lemmas about that function. Runs are sequences of steps; a lemma
about `Run` speaks of every run. Time is an integer argument that never decreases; settings are
constant over a run; capacities are at least 1; job ids, nonces and request numbers are fresh.
`Wrappers`, `JsString` and `StableSort` hold what several modules share.

Where a plausible property fails, the project says so, with an input and with the exact condition:
merging past 65536 vertices (`WrapBreaksManifold`, `MergeBoundIsExact`), a list of meshes replaced by
another after their shared material was tinted, where growing the list would be harmless
(`LateMeshKeepsTint`, `TintStays`, `LateMeshIff`), positional swapping under another material order
(`OrderMattersByPosition`, `PositionalOrderIff` and its two special cases), `retry` right after a change
of account (`RetryCanLeak`, `RetryIsSafeIff`), plain text that holds an escape pair
(`PlainTextChanges`, `PlainTextIff`), and the age of a cached balance that was written late
(`LateRunAnswers`, `WindowHoldsIff`). For the text codec and for `retry` the comments in the source
promise more than its code does; the model follows the code.

## Model

| member | source | states |
|---|---|---|
| Glb.TranslateMesh | backend/src/lib/glb.ts:14-22 | the loop adds the offsets to every coordinate and keeps the indices; a ragged end is moved like the rest |
| Glb.TranslatedAt | backend/src/lib/glb.ts:16-20 | each vertex moves by the three offsets, coordinate by coordinate |
| Glb.TotalSizes | backend/src/lib/glb.ts:29-34 | the first loop of the merge sums the vertices of the parts, as lengths divided by three, and their indices |
| Glb.OffsetInto | backend/src/lib/glb.ts:41-43 | the inner loop writes the indices moved up by the vertex offset, wrapped to 16 bits, and nothing else |
| Glb.MergeMeshes | backend/src/lib/glb.ts:28-48 | the merged arrays are the parts' positions in order and their indices, each moved up by the vertices before it, as 16-bit writes leave them, for parts of any length |
| Glb.CountSides | backend/src/lib/glb.ts:55-64 | the map counts for each edge, by its name, the triangle sides on it, without zero entries; at a ragged end a missing corner is part of the name |
| Glb.IsManifold | backend/src/lib/glb.ts:54-69 | true exactly when the indices are whole triangles and every edge is on exactly two sides |
| Glb.PairedIff | backend/src/lib/glb.ts:54-69 | named edges are all paired exactly for whole triangles with two sides at every edge: a ragged index array is never accepted |
| Glb.ManifoldIff | backend/src/lib/glb.ts:56-67 | in terms of the triangles alone: manifold exactly if between the ends of each triangle side there are two sides in all, in either direction |
| Glb.ManifoldEdgeCount | backend/src/lib/glb.ts:50-69 | an accepted mesh has 3 × triangles = 2 × distinct edges |
| Glb.PartCount | backend/src/lib/glb.ts:39-46 | in the merged mesh each part keeps its own edge counts, moved up to its own vertices |
| Glb.EdgeHasPart | backend/src/lib/glb.ts:39-46 | every edge of the merged mesh comes from some part |
| Glb.PartIsUnique | backend/src/lib/glb.ts:39-46 | and from one part only: the merged counts are the disjoint union of the parts' |
| Glb.MergePointsAtTheSame | backend/src/lib/glb.ts:39-46 | within 65536 vertices an index of the merged mesh points at the very coordinates its part's index points at |
| Glb.MergeManifold | backend/src/lib/glb.ts:28-69 | with at most 65536 vertices in all, the merged mesh is manifold exactly when every part is |
| Glb.MergeTranslated | backend/src/lib/glb.ts:14-48 | moving all parts and merging is merging and moving |
| Glb.WrapBreaksManifold | backend/src/lib/glb.ts:36-43 | for every vertex count above 65536 there are manifold parts of that many vertices in all whose merged mesh is not manifold |
| Glb.MergeBoundIsExact | backend/src/lib/glb.ts:28-69 | for n vertices in all, every merge of parts is manifold exactly when the parts are, if and only if n is at most 65536 |
| BoundedMap.SweepLoop | backend/src/mcp/auth.ts:157-161 | deleting while iterating leaves exactly the unexpired entries in their order |
| BoundedMap.EvictLoop | backend/src/mcp/auth.ts:139-143 | deleting the first key until there is room leaves the newest entries in their order |
| RateLimit.Limiter.RateLimited | backend/src/mcp/auth.ts:129-154 | one call is the step function: new window, counted call, or room made at the ceiling |
| RateLimit.Limiter.SweepExpired | backend/src/mcp/auth.ts:157-161 | the sweep keeps the live windows, in order, and the invariant |
| RateLimit.CallKeepsSize | backend/src/mcp/auth.ts:134-150 | the map never exceeds maxKeys |
| RateLimit.CallKeepsInv | backend/src/mcp/auth.ts:145-153 | insertion order stays non-decreasing in resetAt |
| RateLimit.RunInv | backend/src/mcp/auth.ts:129-161 | every run of calls and sweeps keeps the map within maxKeys and its insertion order the order in which windows end |
| RateLimit.EvictsWhenFull | backend/src/mcp/auth.ts:135-144 | a live window is evicted exactly when a new key meets maxKeys live ones |
| RateLimit.VictimEndsFirst | backend/src/mcp/auth.ts:136-148 | after any run from the empty map, a live window that a call evicts ends no later than any other live one |
| RateLimit.RefinesUnbounded | backend/src/mcp/auth.ts:129-161 | while at most maxKeys keys have open windows, every answer is that of a limiter that never forgets |
| RateLimit.RefusedFromTheLimitOn | backend/src/mcp/auth.ts:145-153 | for the limiter that never forgets: a call with no window open is let in and opens one, and of that key's calls until its end exactly those after number maxPerWindow are refused |
| RateLimit.AtMostTwoWindows | backend/src/mcp/auth.ts:129-154 | a key never evicted gets at most 2 × max(1, maxPerWindow) calls in any half-open interval of one window |
| RateLimit.UncrowdedKeepsWindow | backend/src/mcp/auth.ts:177-197 | in an uncrowded run no open window is evicted; the per-IP limiter is the same class |
| RateLimit.UncrowdedAtMostTwoWindows | backend/src/mcp/auth.ts:129-161 | so in an uncrowded run from the empty map every key gets at most 2 × max(1, maxPerWindow) calls in any half-open interval of one window |
| NonceAuth.NonceStore.PutNonce | backend/src/routes/auth.ts:62-76 | room is made at the ceiling, then the nonce is stored; the cap holds |
| NonceAuth.NonceStore.TakeNonce | backend/src/routes/auth.ts:77-83 | a nonce is used up by being looked up, and given only if it has not expired |
| NonceAuth.NonceStore.SweepExpired | backend/src/routes/auth.ts:48-53 | the sweep drops the expired nonces and keeps the cap |
| NonceAuth.PutFacts | backend/src/routes/auth.ts:62-76 | a put stays within the cap, stores its entry and alters no other |
| NonceAuth.AnswersRefine | backend/src/routes/auth.ts:61-83 | while live nonces stay below the cap, every take answers as a store that is never swept |
| NonceAuth.ApplyKeepsInv | backend/src/routes/auth.ts:147-197 | every step of the handlers keeps pending checks and sessions entitled and their nonces distinct |
| NonceAuth.EveryJwtHasItsNonce | backend/src/routes/auth.ts:158-196 | in every run no two JWTs use one nonce, and each nonce was issued to that address and not expired when taken |
| NonceAuth.EveryJwtIsSigned | backend/src/routes/auth.ts:158-196 | every JWT of every run comes from a challenge for its address, a later verification by that address with that nonce within five minutes, and then a good signature for that very verification |
| NonceAuth.SignInSucceeds | backend/src/routes/auth.ts:170-196 | a nonce still stored, verified by its address within five minutes and then well signed, gives exactly one JWT whatever runs between; a bad signature gives none |
| NonceAuth.ChallengeWaits | backend/src/routes/auth.ts:158-163 | a nonce stays stored through any events that do not look it up, do not sweep past its five minutes and issue fewer than maxEntries others |
| NonceAuth.ForeignVerifyGivesNothing | backend/src/routes/auth.ts:175-182 | a verification by another address uses the nonce up and leads to no check and no JWT |
| NonceAuth.TickClears | backend/src/routes/auth.ts:48-53 | a sweep leaves exactly the nonces that have not expired |
| GenerateJobs.JobStore.CreateJob | backend/src/lib/generate-jobs.ts:68-76 | stale jobs are swept, the oldest evicted to make room, the new job pending and last |
| GenerateJobs.JobStore.SetDone | backend/src/lib/generate-jobs.ts:77-80 | the state of a known job is replaced in place; an unknown one changes nothing |
| GenerateJobs.JobStore.SetError | backend/src/lib/generate-jobs.ts:81-84 | likewise for a failure |
| GenerateJobs.JobStore.TakeJob | backend/src/lib/generate-jobs.ts:85-91 | the answer and the deletion on reading a terminal state |
| GenerateJobs.EvictKept | backend/src/lib/generate-jobs.ts:69-74 | an eviction drops only jobs with at least maxEntries − 1 younger ones |
| GenerateJobs.TakeAnswers | backend/src/lib/generate-jobs.ts:85-91 | a read gives a state only to the owner and only the one last set; an untaken job within its TTL with fewer than maxEntries younger ones is always found |
| GenerateJobs.DeliveredOnce | backend/src/lib/generate-jobs.ts:85-91 | after a terminal state is delivered no run finds the job again |
| GenerateJobs.PendingIsFound | backend/src/lib/generate-jobs.ts:67-91 | from its creation on a job is found pending by its owner, however often read, and refused to others, within its TTL and while fewer than maxEntries jobs were created since |
| GenerateJobs.FinishedIsFound | backend/src/lib/generate-jobs.ts:67-91 | once its state is set, a job waits through any run of other jobs, sweeps, evictions and readers for the first read by its owner, under the same conditions |
| GenerateJobs.SweptIsGone | backend/src/lib/generate-jobs.ts:54-58 | a sweep past the TTL of a job ends it for good |
| GenerateJobs.EveryRun | backend/src/lib/generate-jobs.ts:52-92 | every run stays within maxEntries and in creation order, and keeps the jobs promised to survive |
| QuotaStore.Store.GetGeminiState | backend/src/lib/quota-store.ts:194-209 | the day's count of the scope, and the cooldown unless it has run out |
| QuotaStore.Store.RecordGeminiUsage | backend/src/lib/quota-store.ts:211-215 | one bucket of the day grows by one; the other tables stay |
| QuotaStore.Store.SetGeminiCooldown | backend/src/lib/quota-store.ts:217-219 | a cooldown overwrites the last one, shorter or longer |
| QuotaStore.Store.SetGeminiRemaining | backend/src/lib/quota-store.ts:221-223 | remaining and reset are replaced, the cooldown stays |
| QuotaStore.Store.IsPaymentSpent | backend/src/lib/quota-store.ts:225-227 | whether the digest was marked |
| QuotaStore.Store.MarkPaymentSpent | backend/src/lib/quota-store.ts:229-232 | true exactly for the call that inserts the digest |
| QuotaStore.WritesAreRead | backend/src/lib/quota-store.ts:194-223 | what is written is read back: a cooldown until it has run out, remaining and reset, each use of the day |
| GeminiQuota.SafeCooldown | backend/src/lib/gemini-quota.ts:40-43 | every cooldown written at t lies in (t, t + 1 hour] |
| GeminiQuota.RecordSuccess | backend/src/lib/gemini-quota.ts:100-115 | the tables after a success: the global count and that of a given address, the remaining row, a cooldown when nothing remains |
| GeminiQuota.RecordRateLimited | backend/src/lib/gemini-quota.ts:126-131 | the tables after a 429: a cooldown from the headers or the default |
| GeminiQuota.EnvLimitsPositive | backend/src/routes/geminiQuotaGate.ts:27-47 | limits read from the environment are positive or off |
| GeminiQuota.EnvLimitsAre | backend/src/routes/geminiQuotaGate.ts:27-47 | a positive number is the limit, any other number turns it off, without a number there is no budget and fifty calls a day for an address |
| GeminiQuota.CooldownIs | backend/src/lib/gemini-quota.ts:40-43 | a cooldown ends at the instant the headers announce, in seconds from now or as an epoch time in seconds or milliseconds, if that lies within the next hour, and else after one minute |
| GeminiQuota.RateLimitedWrites | backend/src/lib/gemini-quota.ts:126-131 | a 429 writes that cooldown and nothing else |
| GeminiQuota.SuccessCounts | backend/src/lib/gemini-quota.ts:100-103 | a success adds one to the global row of the day and one to that of its address, and to no other |
| GeminiQuota.SuccessLearns | backend/src/lib/gemini-quota.ts:104-115 | it keeps the announced remaining calls, and when none remain writes the cooldown its headers call for |
| GeminiQuota.RefusedIffCause | backend/src/lib/gemini-quota.ts:66-86 | a check refuses exactly for an active cooldown, a spent budget or a spent address cap |
| GeminiQuota.CausesAre | backend/src/lib/gemini-quota.ts:66-86 | the three causes in the tables: a cooldown not run out, a count that has reached the budget, or that of the address its cap |
| GeminiQuota.RefusalIsExact | backend/src/lib/gemini-quota.ts:57-86 | without further records all checks before now + retryAfterMs are refused, and from that instant none for the same cause; the wait is positive |
| GeminiQuota.CooldownBounded | backend/src/routes/geminiQuotaGate.ts:62-72 | a 429 shows as quota right away and is forgotten within the hour |
| QuotaProtocol.Gate | backend/src/routes/copilot.ts:154-166 | check then count, with two readings of the clock |
| QuotaProtocol.StepDoes | backend/src/routes/copilot.ts:154-166 | a request refused by one of the three causes changes nothing, one let in waits for its call, and a settled call is over |
| QuotaProtocol.ApplyKeepsInv | backend/src/lib/copilot-client.ts:188-199 | each request, timeout and late settlement keeps the counts within their bounds |
| QuotaProtocol.EveryRun | backend/src/routes/copilot.ts:151-201 | under every interleaving: each address within its cap, the global count within budget − 1 + K, successes never above attempts |
| QuotaProtocol.RowsCount | backend/src/routes/copilot.ts:154-201 | in every run each row counts exactly the day's attempts of the address that were let in, or the day's successes, those of timed-out calls included |
| QuotaProtocol.CooldownBlocks | backend/src/lib/copilot-client.ts:188-199 | after a 429, or a success with nothing remaining, no request for the capability is let in before the announced instant, whatever else runs, until another call settles |
| PaymentVerifier.Verifier.Begin | backend/src/sui/paymentVerifier.ts:77-89 | the check before the fetch reads the shared table, or the instance's own set |
| PaymentVerifier.Verifier.MarkSpent | backend/src/sui/paymentVerifier.ts:80-85 | true exactly for the first mark of a digest |
| PaymentVerifier.Verifier.Conclude | backend/src/sui/paymentVerifier.ts:101-153 | the verdict is the first fault in order, else the mark; only a success marks |
| PaymentVerifier.LowerIff | backend/src/sui/paymentVerifier.ts:65-67 | two addresses are equal in lower case exactly if they agree letter by letter up to case |
| PaymentVerifier.VerifiedIff | backend/src/sui/paymentVerifier.ts:101-153 | a fetched payment is accepted exactly when it succeeded, was sent by the payer, is recent or has no time, is the operator's or has a SUI balance change of at least the fee owned by the treasury, addresses compared without case, and its digest is unmarked |
| PaymentVerifier.RefusedWith | backend/src/sui/paymentVerifier.ts:101-153 | each reason of refusal is given exactly when it holds and none before it does |
| PaymentVerifier.FirstMarkWins | backend/src/sui/paymentVerifier.ts:121-153 | after one success no run lets another verification of that digest succeed |
| PaymentVerifier.OnlySuccessSpends | backend/src/sui/paymentVerifier.ts:101-153 | in every run a digest is marked exactly when a verification of it succeeded: a refusal never uses a payment up |
| PaymentVerifier.FeesCoverJobs | backend/src/routes/generate.ts:133-149 | in every run, restarts included, digests are granted once and neither grants nor jobs of non-operators outnumber the distinct successful transactions with such a balance change |
| PaymentVerifier.EveryJobIsPaid | backend/src/routes/generate.ts:133-149 | in every run each job stands for a successful transaction of its owner, sent by the operator or with such a balance change |
| PaymentVerifier.PaymentGetsItsJob | backend/src/routes/generate.ts:133-149 | a payment in order, fetched while its digest is unmarked, gets exactly its job, whatever other requests run between |
| PaymentVerifier.RequestEnds | backend/src/sui/paymentVerifier.ts:91-99 | a failed fetch, a refusal or a created job ends a request, and a restart ends them all but keeps the marks |
| PaymentVerifier.JobIsDelivered | backend/src/routes/generate.ts:73-160 | in every run the owner's first read after its job has ended gives the result, or the code, status and refundability of the failure, and nobody else reads it, within the TTL and while fewer than maxEntries jobs were created since |
| IntegrationIndexer.FoldTwice | backend/src/events/integrationIndexer.ts:128-155 | ingesting the same events again changes nothing, order included |
| IntegrationIndexer.Replay | backend/src/events/integrationIndexer.ts:157-174 | re-reading from an earlier cursor gives the clean pass up to the new end |
| IntegrationIndexer.PartAbsorbed | backend/src/events/integrationIndexer.ts:169-177 | part of a page, cut off anywhere by a failure, is absorbed by the next reading |
| IntegrationIndexer.CommitIsClean | backend/src/events/integrationIndexer.ts:163-174 | at every page commit the store is one clean fold over the log up to that page's end |
| IntegrationIndexer.CleanHasPair | backend/src/events/integrationIndexer.ts:128-155 | the clean pass holds a record exactly for the pairs that some event registers: both named, with a time, and valid metadata in the table of the collection under the integrator |
| IntegrationIndexer.CleanHasLast | backend/src/events/integrationIndexer.ts:143-154 | the record has the metadata and the time of the last such event |
| IntegrationIndexer.PollEnds | backend/src/events/integrationIndexer.ts:161-180 | a page moves the cursor to its end when it brings one; a poll asks again exactly after a page with events that says there are more; a failure keeps the cursor |
| IntegrationIndexer.TableIsKept | backend/src/events/integrationIndexer.ts:94-106 | a table once found is kept in the cache |
| IntegrationIndexer.EveryRun | backend/src/events/integrationIndexer.ts:128-180 | in every run with failures and overlapping calls at most one poll runs, and each commit is clean |
| IntegrationIndexer.FailuresHeal | backend/src/events/integrationIndexer.ts:157-180 | after any run, a poll without a failure leaves the clean pass over all that was served, and the cursor at its end |
| IntegrationIndexer.CatchUpExists | backend/src/events/integrationIndexer.ts:157-180 | and after any run there is a poll that indexes the whole log |
| IntegrationIndexer.Indexer.IngestEvent | backend/src/events/integrationIndexer.ts:94-155 | an event is ingested through the table cache, dropped, or throws, exactly when a fetch that is made fails, leaving the store as it was |
| IntegrationIndexer.Indexer.WorkThrough | backend/src/events/integrationIndexer.ts:169-171 | the events of one page: unless one throws, the store is the clean pass over the log up to the page's end |
| IntegrationIndexer.Indexer.IngestPage | backend/src/events/integrationIndexer.ts:163-174 | a page whose events do not throw leaves the clean pass up to its end, and the cursor there if it brings one; else the cursor stays |
| IntegrationIndexer.Indexer.PollOnce | backend/src/events/integrationIndexer.ts:157-180 | a tick during another changes nothing; the cursor stands where the pages committed took it; a tick without failure ends with a clean fold up to the end of its last page; served every page, it ends at the end of the log |
| IntegrationIndexer.Indexer.GetIntegrations | backend/src/events/integrationIndexer.ts:194-196 | the records of a collection in insertion order |
| IntegrationIndexer.Indexer.GetLeaderboard | backend/src/events/integrationIndexer.ts:197-205 | one row per collection, with its number of integrators and its latest registration |
| CanvasMode.HexChannels | frontend/src/babylon/applyCanvasMode.ts:96-105 | a colour is read exactly from one optional # and six digits, and the shifts and masks give the three pairs |
| CanvasMode.HexReadsBack | frontend/src/babylon/applyCanvasMode.ts:96-105 | six digits of either case, with or without a # and with blanks around, give the three numbers as parts of 255 |
| CanvasMode.OnlyHexIsRead | frontend/src/babylon/applyCanvasMode.ts:96-98 | and nothing else is read as a colour |
| CanvasMode.Segments | frontend/src/babylon/modePalette.ts:46-56 | the colour of each part, segment by segment around the wheel |
| CanvasMode.PartsApart | frontend/src/babylon/modePalette.ts:46-56 | two parts get one colour exactly when their indices agree modulo 16 |
| CanvasMode.RestoreMesh | frontend/src/babylon/applyCanvasMode.ts:53-84 | a mesh keeps the snapshot it has and otherwise takes one of the present look; the material is brought back to it |
| CanvasMode.SetMeshTint | frontend/src/babylon/applyCanvasMode.ts:86-91 | the albedo colour is tinted, else the diffuse one |
| CanvasMode.ApplyCanvasMode | frontend/src/babylon/applyCanvasMode.ts:107-167 | one call is the step function on all snapshots and looks there are, whatever its meshes went through before; no other mesh or material changes |
| CanvasMode.LastMeshDecides | frontend/src/babylon/applyCanvasMode.ts:53-84 | restoring leaves a shared material as the snapshot of its last mesh in the list |
| CanvasMode.RestoreDecides | frontend/src/babylon/applyCanvasMode.ts:65-118 | after any list, fresh and known meshes mixed or repeated, a material wears its remembered look if the list regains it and else the look it had |
| CanvasMode.RegainsIff | frontend/src/babylon/applyCanvasMode.ts:65-118 | a list without repetitions regains a material exactly when it holds a mesh of it that was shown before |
| CanvasMode.ShowAll | frontend/src/babylon/applyCanvasMode.ts:53-167 | after any non-empty sequence of calls over meshes that may share materials, the looks depend on the originals and the last call only |
| CanvasMode.LastTintIs | frontend/src/babylon/applyCanvasMode.ts:126-147 | a shared material ends with the colour of its last mesh that has a readable one |
| CanvasMode.FlagsAfter | frontend/src/babylon/applyCanvasMode.ts:150-167 | after a call a material has alpha 0.2 exactly in solo mode with a mesh of it not highlighted, is drawn in wires in wireframe mode, and is else as originally, opaque and plain by default |
| CanvasMode.ColorAfter | frontend/src/babylon/applyCanvasMode.ts:126-148 | in parts mode a material wears the colour of its last mesh's index, else that of its last mesh with a readable colour, else its own; albedo before diffuse |
| CanvasMode.PlainRestores | frontend/src/babylon/applyCanvasMode.ts:113-139 | plain mode without colours gives back the original, exactly equal when alpha and wireframe were there |
| CanvasMode.TwoLists | frontend/src/babylon/applyCanvasMode.ts:53-167 | one list shown by any calls, then another that may share meshes and materials with it, by any calls: the look of every material in closed form |
| CanvasMode.LateMeshKeepsTint | frontend/src/babylon/applyCanvasMode.ts:65-167 | the same on the objects: a list that replaces another takes the look left in a shared material for its original; one that grew regains the original |
| CanvasMode.LateMeshIff | frontend/src/babylon/applyCanvasMode.ts:65-167 | shown plainly by the second list, a material of both gets its original look back exactly when a mesh of the first list stands in the second (for lists without repetitions), or the first list left it plain |
| CanvasMode.TintStays | frontend/src/babylon/applyCanvasMode.ts:65-148 | a black material shown as a part by one mesh and then plainly by another alone stays tinted; with both meshes in the list it does not |
| MaterialSwap.IndexNames | backend/src/lib/gltf-material-swap.ts:169-175 | the index holds the first material of each name and the set of names met twice |
| MaterialSwap.Paint | backend/src/lib/gltf-material-swap.ts:136-152 | the colour is set, and the texture only when one is asked for and loads |
| MaterialSwap.SwapMaterial | backend/src/lib/gltf-material-swap.ts:127-206 | the looks left in the objects and the error are those of the swap on values |
| MaterialSwap.OrderDoesNotMatter | backend/src/lib/gltf-material-swap.ts:162-189 | by name, every permutation of the materials gives the same error and the same look to each material |
| MaterialSwap.PositionalSwapPaints | backend/src/lib/gltf-material-swap.ts:191-206 | the closed form of a swap by position, and when it throws |
| MaterialSwap.SwapByPositionIs | backend/src/lib/gltf-material-swap.ts:132-206 | each material takes the colour of the part at its place, and its texture if it asks for one, up to and with the colour of the first part whose texture does not load, for which alone the swap throws |
| MaterialSwap.PositionalOrderIff | backend/src/lib/gltf-material-swap.ts:191-206 | by position, another order of the materials gives the same error, and the same look to each material exactly when the parts at its old and its new place do the same to it |
| MaterialSwap.PlainOrderIff | backend/src/lib/gltf-material-swap.ts:191-206 | with colours only: exactly when each material meets the same colour at both places |
| MaterialSwap.TexturedOrderIff | backend/src/lib/gltf-material-swap.ts:191-206 | with textures that load: exactly when the parts at both places have the same colour and leave the same image |
| MaterialSwap.OrderMattersByPosition | backend/src/lib/gltf-material-swap.ts:191-206 | there are two materials and two parts for which a swap by position gives another result when the materials are listed the other way round |
| MaterialSwap.NamesInStep | backend/src/lib/gltf-material-swap.ts:162-206 | unique names that line up with the positions: both paths are one |
| MaterialSwap.NamedSwapSucceeds | backend/src/lib/gltf-material-swap.ts:176-187 | a named swap throws nothing exactly when each part names one material and its texture loads |
| MaterialSwap.NamedSwapPaints | backend/src/lib/gltf-material-swap.ts:176-188 | named materials wear their part's colour, and its texture if it asks for one; the others are as they were |
| MaterialSwap.NamedSwapThrows | backend/src/lib/gltf-material-swap.ts:176-187 | a named swap throws for the first part that names several materials, or none, or whose texture does not load, and says which |
| MaterialSwap.MismatchThrows | backend/src/lib/gltf-material-swap.ts:128-195 | a base without materials, and unnamed parts of another number, throw before anything changes |
| MaterialSwap.NamesAre | frontend/src/babylon/partMaterials.ts:30-34 | the names are those of the meshes with vertices in their order, None where material or name is missing |
| MaterialSwap.UniqueNonEmptyIff | frontend/src/babylon/partMaterials.ts:41-46 | the size test says exactly that the names are non-empty and pairwise different |
| MaterialSwap.TaggableIff | frontend/src/babylon/partMaterials.ts:55-57 | taggable exactly with two to sixty-four non-empty, different names |
| MaterialSwap.TaggableUploadsSwap | frontend/src/babylon/partMaterials.ts:30-57 | the parts of a taggable upload recolour every base that has each name exactly once, without an error |
| CopilotTurn.TurnDecides | backend/src/lib/copilot-client.ts:203-223 | a turn synthesizes exactly when forced or after two turns; a prompt is never empty and at most 1000 characters |
| CopilotTurn.InstructionComesLast | backend/src/lib/copilot-client.ts:151-157 | the model always gets a conversation that ends with a user turn asking for the prompt, after the caller's own turns |
| CopilotTurn.NothingIsDropped | backend/src/lib/copilot-client.ts:151-157 | every message is sent as it was, but for the user's last one, which comes before the instruction |
| CopilotTurn.InstructedIff | backend/src/lib/copilot-client.ts:205-212 | the instruction is given exactly when the turn is forced or two messages are the copilot's |
| CopilotTurn.AnswerIsTheModels | backend/src/lib/copilot-client.ts:213-222 | a turn answers exactly if the model's text is more than blanks, with that text without the blanks around it |
| CopilotTurn.LongPromptIsCut | backend/src/lib/copilot-client.ts:138-141 | a prompt too long is cut to what fits, without blanks at its end |
| CopilotTurn.ReplyFacts | backend/src/routes/copilot.ts:125-201 | through validation, gate, turn and failure: an answer is of the kind called for, and a quota refusal announces a positive wait |
| CopilotTurn.ServeAnswers | backend/src/routes/copilot.ts:62-201 | the route answers exactly a caller let in, with a valid conversation, a configured copilot, a quota not spent and a model that says something |
| CopilotTurn.ServeRefuses | backend/src/routes/copilot.ts:154-201 | a turn not answered gives the wait of the spent quota, or after a failure that of the cooldown, or else says unavailable |
| JsString.TrimCuts | frontend/src/creator/useRiffCopilot.ts:192-192 | trimming cuts blanks off both ends and nothing else |
| JsString.BlankIff | frontend/src/creator/useRiffCopilot.ts:192-192 | the blanks are the twenty-five white space and line end characters of ECMA-262 |
| RiffCopilot.Conversation.DriveTurn | frontend/src/creator/useRiffCopilot.ts:119-131 | the new hook state and the request sent, or no session |
| RiffCopilot.Conversation.RetryTurn | frontend/src/creator/useRiffCopilot.ts:185-188 | the last arguments again, unless in flight |
| RiffCopilot.Conversation.Send | frontend/src/creator/useRiffCopilot.ts:190-201 | a trimmed answer is appended and sent unless blocked |
| RiffCopilot.Conversation.Generate | frontend/src/creator/useRiffCopilot.ts:203-206 | the conversation is sent with synthesis forced unless blocked or empty |
| RiffCopilot.Conversation.Clear | frontend/src/creator/useRiffCopilot.ts:208-217 | a reset forgets the conversation and the last arguments |
| RiffCopilot.Conversation.OnSessionChange | frontend/src/creator/useRiffCopilot.ts:96-106 | the session effect forgets the conversation but not the last arguments |
| RiffCopilot.Conversation.OnQuotaTimer | frontend/src/creator/useRiffCopilot.ts:111-117 | the timer returns a mounted hook to idle |
| RiffCopilot.Conversation.OnSettled | frontend/src/creator/useRiffCopilot.ts:131-180 | what a settled request changes, with its guards and its finally |
| RiffCopilot.StepKeepsInv | frontend/src/creator/useRiffCopilot.ts:119-217 | every step keeps the three-turn and in-flight invariants |
| RiffCopilot.EveryRun | frontend/src/creator/useRiffCopilot.ts:119-217 | in every run at most three copilot messages, the third only the synthesized prompt; inFlight exactly when one outstanding request has the latest number; a quota refusal always has its timer |
| RiffCopilot.SendIff | frontend/src/creator/useRiffCopilot.ts:190-201 | a send is made exactly when the text is more than blanks and nothing blocks it, adds the trimmed text, and sends all that is shown, unforced, under a new number |
| RiffCopilot.GenerateIff | frontend/src/creator/useRiffCopilot.ts:203-206 | forcing sends the very conversation shown under the same conditions |
| RiffCopilot.LatestReplyShows | frontend/src/creator/useRiffCopilot.ts:139-171 | what each reply to the latest request shows: the conversation grows by an answer alone |
| RiffCopilot.FailureShows | frontend/src/creator/useRiffCopilot.ts:172-179 | a failed request shows an error if it is the latest, keeps the conversation, and frees the next turn |
| RiffCopilot.RetryRepeats | frontend/src/creator/useRiffCopilot.ts:185-188 | a retry after it sends exactly what had failed |
| RiffCopilot.TalkOnlyGrows | frontend/src/creator/useRiffCopilot.ts:119-206 | without retry, reset or change of session nothing shown is ever lost |
| RiffCopilot.ThirdAnswerIsThePrompt | frontend/src/creator/useRiffCopilot.ts:119-206 | once two answers are shown, after any further talk the next heeded one is the prompt and ends the flow |
| RiffCopilot.ThreeTurnsGiveThePrompt | frontend/src/creator/useRiffCopilot.ts:60-206 | from the first render three heeded turns give two questions and the prompt, with the whole conversation shown |
| RiffCopilot.ClearedForGood | frontend/src/creator/useRiffCopilot.ts:94-106 | a reset or change of session leaves nothing shown or blocked, and no request sent before is ever the latest again |
| RiffCopilot.TimerFrees | frontend/src/creator/useRiffCopilot.ts:111-117 | the timer ends a quota refusal |
| RiffCopilot.QuietSteps | frontend/src/creator/useRiffCopilot.ts:94-117 | a render with the token in use, or the timer of an unmounted hook, changes nothing; another token makes the session effect due |
| RiffCopilot.UnmountedIgnores | frontend/src/creator/useRiffCopilot.ts:139-179 | an unmounted hook shows nothing new |
| RiffCopilot.UnmountedForGood | frontend/src/creator/useRiffCopilot.ts:82-87 | an unmounted hook stays so |
| RiffCopilot.FinishedUntilCleared | frontend/src/creator/useRiffCopilot.ts:190-217 | after synthesis sending and forcing change nothing until a reset or session change |
| RiffCopilot.StaleChangesNothing | frontend/src/creator/useRiffCopilot.ts:139-179 | a response with an older number changes no field |
| RiffCopilot.UnheededChangesNothing | frontend/src/creator/useRiffCopilot.ts:139-179 | neither does one for another token or an unmounted hook, but for lifting inFlight |
| RiffCopilot.SessionsDoNotMix | frontend/src/creator/useRiffCopilot.ts:94-217 | with retries made only while a conversation is shown, messages shown and sent all belong to their session |
| RiffCopilot.PanelIsCareful | frontend/src/creator/CopilotChat.tsx:112-121 | a panel that offers a retry only after an error meets that condition |
| RiffCopilot.PanelSessionsDoNotMix | frontend/src/creator/CopilotChat.tsx:112-121 | so in every run of such a panel the messages shown and sent all belong to their session |
| RiffCopilot.RetryIsSafeIff | frontend/src/creator/useRiffCopilot.ts:94-217 | a whole run sends only messages of the present session if and only if every retry in it that takes effect finds a conversation shown |
| RiffCopilot.RetryCanLeak | frontend/src/creator/useRiffCopilot.ts:96-106 | a retry right after an account change sends the old conversation under the new token |
| Json.QuoteReadsBack | shared/src/memory.ts:61-65 | every string, lone surrogates and control characters included, is read back from its JSON form |
| Json.NoControls | shared/src/memory.ts:64-64 | a string in JSON form holds no control character |
| Json.PlainIsKept | shared/src/memory.ts:64-64 | a string of plain units is written as it is, in quotes |
| Json.EscapesAre | shared/src/memory.ts:64-64 | which units are escaped by a letter and which by four digits |
| JsonGrammar.TreeReads | shared/src/memory.ts:81-81 | every value the grammar of RFC 8259 writes is read back with its meaning |
| JsonGrammar.ParseIff | shared/src/memory.ts:81-81 | a text parses to a value exactly if the grammar of RFC 8259 writes it for that value |
| MemoryCodec.IndexOf | shared/src/memory.ts:73-73 | the first separator, or none |
| MemoryCodec.EscapeRoundTrip | shared/src/memory.ts:48-55 | the one-pass unescape undoes the two-pass escape, which leaves no separator |
| MemoryCodec.RefReadsBack | shared/src/memory.ts:80-86 | the trailer's parse gives back the reference |
| MemoryCodec.RoundTrip | shared/src/memory.ts:61-91 | parsing an encoded record returns exactly the prompt, the model and the creator, an empty creator counting as none |
| MemoryCodec.AnyTrailer | shared/src/memory.ts:71-91 | whatever follows the separator, the prompt comes back, and a reference exactly if the trailer is a JSON object whose m is a string, with its c if that is one |
| MemoryCodec.EncodeIsInjective | shared/src/memory.ts:61-65 | two records are equal exactly when their prompts, models and creators are, an empty creator counting as none |
| MemoryCodec.OneSeparator | shared/src/memory.ts:14-16 | a record holds exactly one raw separator, right after the escaped prompt |
| MemoryCodec.PlainTextIff | shared/src/memory.ts:74-77 | a text without separator is its own prompt exactly when it holds no escape byte followed by 0 or 1 |
| MemoryCodec.PlainTextChanges | shared/src/memory.ts:75-76 | the two-character text for which it is not |
| SearchRanking.Consider | frontend/src/collection/baseSearchRanking.ts:61-72 | the loop keeps for each candidate the closest counting chip |
| SearchRanking.RankForkableMatches | frontend/src/collection/baseSearchRanking.ts:46-91 | the order and the matches are those of the specification |
| SearchRanking.ClosestVariant | frontend/src/browse/browseSearchRanking.ts:58-62 | the loop finds the closest match among the variants |
| SearchRanking.RankCollectionMatches | frontend/src/browse/browseSearchRanking.ts:33-75 | the cards and their order are those of the specification, with or without matches |
| SearchRanking.GroupByCollection | frontend/src/browse/BrowsePage.tsx:36-50 | the loop builds the specified groups |
| SearchRanking.HitsAre | frontend/src/collection/baseSearchRanking.ts:62-69 | chips count exactly when they name a model by a non-empty id and their transformed distance is finite and not negative, with that distance and prompt |
| SearchRanking.AllHitsAre | frontend/src/collection/baseSearchRanking.ts:58-74 | the hits are those of the personal chips, then of the global ones, each scope with its own transformation |
| SearchRanking.CollectedIs | frontend/src/collection/baseSearchRanking.ts:58-74 | exactly the candidates some counting chip names are matched, each by the first of its closest chips over both scopes |
| SearchRanking.MatchShowsClosestChip | frontend/src/collection/baseSearchRanking.ts:58-83 | a match shows the distance and prompt of that chip, and is strong exactly below the threshold |
| SearchRanking.BestOfIs | frontend/src/browse/browseSearchRanking.ts:58-62 | a card takes the match of the first of its closest variants |
| SearchRanking.OrderedModelsPermute | frontend/src/collection/baseSearchRanking.ts:84-90 | ranking loses no model and adds none |
| SearchRanking.OrderedModelsRank | frontend/src/collection/baseSearchRanking.ts:84-90 | matched models first, closest first, the others in their order |
| SearchRanking.SearchRanksModels | frontend/src/collection/baseSearchRanking.ts:46-91 | over the chips of both scopes the named models come first, by the distance of their closest counting chip, and the others keep their order |
| SearchRanking.CardShowsClosestChip | frontend/src/browse/browseSearchRanking.ts:52-67 | a card is matched exactly when a counting chip names one of its variants, and shows a chip at the minimum distance |
| SearchRanking.OrderedKeysPermute | frontend/src/browse/browseSearchRanking.ts:69-74 | the grid holds every card exactly as often as before |
| SearchRanking.OrderedKeysRank | frontend/src/browse/browseSearchRanking.ts:69-74 | matched cards ascend by distance, ties and unmatched ones keep their order |
| SearchRanking.SearchHidesNothing | frontend/src/browse/BrowsePage.tsx:293-296 | over the groups of any catalog the search is a permutation of the cards |
| SearchRanking.SearchRanksCards | frontend/src/browse/browseSearchRanking.ts:33-75 | over the groups of any catalog the named cards come first, by the minimum distance of a counting chip over both scopes and all variants, ties and the rest in their old order |
| SearchRanking.GroupedIs | frontend/src/browse/BrowsePage.tsx:36-50 | a group is the models of its key in their order, and a key is there for some model |
| SearchRanking.SameCardIff | frontend/src/browse/BrowsePage.tsx:41-41 | two models share a card exactly if they name one collection, or are one orphan, or one names as its collection the key made for the other |
| SearchRanking.OneCardEach | frontend/src/browse/BrowsePage.tsx:36-50 | every model is on exactly one card, with exactly the models filed with it |
| SearchRanking.CatalogIsNewestFirst | frontend/src/browse/BrowsePage.tsx:246-273 | fed newest first, cards are headed by their newest variant and come by the age of those heads |
| Preflight.Service.HandleRequest | backend/src/routes/preflight.ts:102-123 | a fresh row answers, otherwise the request fails closed, joins the live fetch or starts one |
| Preflight.Service.LiveFetch | backend/src/routes/preflight.ts:76-82 | the fetch in flight is joined, else one is started |
| Preflight.Service.LiftGuard | backend/src/routes/preflight.ts:78-80 | the finally of the fetch lifts the guard |
| Preflight.Service.FinishRequest | backend/src/routes/preflight.ts:123-134 | a waiter writes the row with its own clock and judges it, or fails closed |
| Preflight.Service.PollOnce | backend/src/events/tripoBalancePoller.ts:47-51 | a tick during another starts nothing |
| Preflight.Service.FinishPoll | backend/src/events/tripoBalancePoller.ts:51-61 | a successful poll writes the row; a failed one leaves it |
| Preflight.OneFetchEach | backend/src/routes/preflight.ts:73-82 | under every interleaving at most one live fetch and one poll are outstanding, and no guard outlasts its call |
| Preflight.ArrivalReads | backend/src/routes/preflight.ts:107-123 | a row younger than the window answers by the threshold; without one an unwired service does not know and a wired one has the request wait for a fetch that is not over |
| Preflight.LandedIsAnswered | backend/src/routes/preflight.ts:121-134 | a waiting request is answered by the result of its fetch, whatever runs between: enough, too little, or unknown when it failed; a result goes into the row |
| Preflight.PolledIsWritten | backend/src/events/tripoBalancePoller.ts:51-61 | a polled result goes into the row with the clock of the write; a failure leaves it |
| Preflight.StepsDo | backend/src/routes/preflight.ts:76-82 | a tick starts a poll exactly if none is under way, a result waits for its continuation, and the end of a fetch lifts its guard |
| Preflight.RestartForgets | backend/src/routes/preflight.ts:73-82 | a restart forgets requests and calls under way, not the row |
| Preflight.AnswersAreBacked | backend/src/routes/preflight.ts:107-134 | every answer about credit rests on a report that says so and settled after the read, or less than the staleness window plus the lag before |
| Preflight.LateRunAnswers | backend/src/events/tripoBalancePoller.ts:51-52 | a run in which that bound is reached |
| Preflight.WindowHoldsIff | backend/src/routes/preflight.ts:110-116 | the staleness window alone holds in every run exactly when continuations are immediate |

## Left out

- SessionsDoNotMix: takes pending effects to run before the next user action or render, as React does for user events.
- FeesCoverJobs: speaks of instances that share one durable table; without a table each instance has its own set.
- ShowAll: takes each material's colours as its own; colour objects shared between two materials are not modelled.
- The batching of React state setters: a step of the hook takes every setter as rendered before the next step.
- The other fixed-window limiters (copilot, caption, pre-flight, challenge): weaker copies of the one modelled.
- The caption route and its client: the same quota protocol again.
- Recall of past prompts, the wording of prompts and logging: they decide nothing here.
- Day keys as yyyymmdd text and edge keys as joined text: a day number and a pair of numbers stand for them.
- 32-bit rounding of vertex positions and 64-bit rounding of vertex counts: both are exact reals.
- The recognition of 429 errors and the reading of headers and environment as text: parsed values are arguments.
- Case folding outside ASCII: payment addresses are hexadecimal.
- JWT and wallet signatures, request schemas of the auth and generate routes, CORS and status codes: given predicates or outcomes.
- GLB parsing and writing, mesh optimisation and texture files: a material is a name, a colour and a texture, and a loader may fail.
- Sui, Tripo, Gemini, Walrus and relayer calls: nondeterministic results of a step.
- Not-a-number balances from the balance provider: a balance is a real number.
- SQLite opening, paths and durability: the store is four tables, and a restart keeps them.
- The indexer's reading of metadata bytes: a fixed function of table and integrator that may also throw; metadata that resolves to nothing is dropped for good, as in the code.
- Timers that start and stop the polls and sweeps: a tick is a step that may happen at any time.
- React components, Babylon scenes, routing, the publishing pages, the CDN worker and the scripts: interface code and input/output.
