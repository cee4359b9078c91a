# Verification of skill_native

A Dafny model of the parts of skill_native that other parts trust, and proofs about it. Check it with
`dafny verify dfyconfig.toml`.

The program runs agent skills in sandboxes, judges the evidence they leave, signs the outcome, and publishes the
signed envelopes in a transparency log. Five groups of modules follow that path.

**The transparency log** (`CanonicalJson`, `LogEntries`, `LogText`, `Merkle`, `LogChain`, `LogReceipts`,
`TransparencyLog`, `LogProtocol`, `LogCrash`, `LogRefinement`). The log is a text file of canonical JSON lines,
chained by digests, with a checkpoint file beside it that holds the root of the RFC 6962 Merkle tree (sections 2.1
and 2.1.1) over the entry digests. The model is at the level of characters: entries are parsed from and written to
text, digests are 32 bytes written in hexadecimal, and the hash is an arbitrary function `H`. Nothing is assumed of
`H` unless a statement asks for no collisions among an explicit finite set of hashed inputs, which is what a real hash
function can offer.
`TransparencyLog.Log` is the class with its two files; `LogProtocol` lets any number of processes take the lock,
read, write a line piece by piece, replace the checkpoint, release, or die between any two steps. `LogCrash` says
which deaths do harm, `LogRefinement` that the interleaved appends amount to atomic ones, in what they publish and in
what they refuse.

**Encodings** (`Decimals`, `Hashing`, `Dsse`, `TreeStream`, `ShellQuote`). Each encoder has an independent decoder
and a proof that the decoder accepts exactly what the encoder writes: the DSSE v1 pre-authentication encoding, the
length-prefixed stream that `digest_tree` hashes, and the quoting of an argument list for a POSIX shell (sections
2.2.2, 2.2.3 and 2.3 of the POSIX.1-2017 Shell Command Language).

**Run artifacts** (`Json`, `Snapshot`, `EvidenceGraph`, `GraphProperties`, `GraphReach`, `GraphReferences`,
`GraphBuilder`, `GraphIds`, `GraphDistinct`, `Replay`, `LogicalTrace`, `Scorecard`, `Continuity`, `Builder`). From
an authority, a plan, evidence and a verdict the builder makes an evidence graph, a replay manifest, a logical trace
and a scorecard. Inputs are arbitrary JSON; the canonical digest is an arbitrary function on JSON, of which two
statements ask that it tell apart an explicit finite set of values up to the order of members (`Json.Same`), as a
digest with sorted keys and no collision does. Each builder is proved to succeed exactly under a stated condition.

**Inference gateway** (`Routing`, `Gateway`, `GatewayProtocol`, `GatewayOvershoot`). The failover loop over
providers, the receipt ledger, and the check of the daily budget in front of both, for one call and for many calls in
flight, with midnight falling between any two steps.

**Recorders and measures** (`Wilson`, `BrowserRecorder`, `WorkspaceDiff`, `StreamCapture`).

`Strings` holds Python's order on strings and sorting, `Wrappers` the option and result types and the lesser of two numbers.

## Where the code does less than it seems to

- A process that dies after the first character of its log line and before the checkpoint is replaced leaves a log
  that every later `verify` and `append` refuses, for ever (`LogCrash.CrashForEver`); it can happen to any append
  (`LogCrash.CrashReached`), and nothing else does that harm (`LogCrash.RefusedExactly`). Receipts keep being
  accepted if the line is complete, and none is if the line is torn (`LogProtocol.IssuedAccepted`).
- `verify_receipt` needs the log alone: it accepts while the checkpoint file is missing or wrong
  (`LogReceipts.ReceiptExact`).
- Two findings that name the same unknown evidence id make the graph builder fail, although each alone is let
  through: their placeholder nodes have the same id (`GraphReferences.RepeatedMissing`). The same goes for a check
  or a finding that occurs twice, be it with its members in another order; `GraphDistinct.BuildableExact` gives the
  whole condition.
- The bundle validator recomputes the digest of the runtime section from three keys, so a plan whose runtime section
  has any other key cannot be bundled (`Builder.BundleExact`, `Builder.PlainRuntimeExact`,
  `Builder.ExtraRuntimeKey`).
- Exact replay does not depend on the runtime version; a mutable version counts only when replay is not exact
  (`Replay.IsManifestOf`).
- The two Wilson formulas differ when there are no trials: (0, 0) against (0, 1) (`Wilson.FormulasAgree`).
- A reply that the provider adapter cannot read, be it for its content or, with any status, for the token counts of
  its usage section, raises an error that the gateway does not catch. The receipts of that call, also those of
  earlier failed attempts, are then never written, so the daily budget bounds the recorded receipts and not the
  requests made. All of them are recorded exactly where no reply was unreadable (`GatewayProtocol.Unrecorded`,
  `GatewayProtocol.AttemptsRecorded`).
- Receipts always have the price 0, so the cost budget refuses either every call or none (`Gateway.CostBudget`,
  `Gateway.Gateway.CostBySign`).
- In the browser's final decision six of the nine policy checks can never be what makes a run fail, given the list of
  violations and the artifact store; an oversized download stays among the artifacts of the failed run
  (`BrowserRecorder.Recorder.Decide`, `BrowserRecorder.ArtifactStore.Download`).
- A link that merely comes to lead out of the workspace is listed as modified, but the change does not say how
  (`WorkspaceDiff.FlagNotCarried`, `WorkspaceDiff.RebuildsExactly`).

## Model

| member | source | states |
|---|---|---|
| CanonicalJson.ReadOfWrite | src/skill_native/transparency_log.py:496-504 | a record of digests, optional digests, numbers, names and digest lists, written as canonical JSON, is read back as itself |
| CanonicalJson.WriteOfRead | src/skill_native/transparency_log.py:346-361 | whatever is read as such a record is exactly the canonical text of what was read |
| CanonicalJson.WriteInjective | src/skill_native/transparency_log.py:496-504 | two records with the same canonical text are equal |
| CanonicalJson.WriteNoLineBreak | src/skill_native/transparency_log.py:496-504 | a record never spans lines |
| LogEntries.PayloadInjective | src/skill_native/transparency_log.py:53-71 | entries whose digests hash the same bytes agree in every field but the digest |
| LogEntries.ParseLineExact | src/skill_native/transparency_log.py:346-361 | a line is accepted as an entry exactly when it is the canonical line of that entry and the entry is valid |
| LogText.ParseLogExact | src/skill_native/transparency_log.py:334-365 | a translated text is read as a list of entries exactly when it is their canonical lines, in order, and all are valid |
| LogText.TornLineUnreadable | src/skill_native/transparency_log.py:339-361 | a last line cut before its line break makes the whole log unreadable |
| LogText.TranslateAppended | src/skill_native/transparency_log.py:334-345 | newline translation of the raw file commutes with appending any part of a line |
| LogText.ReadEntries | src/skill_native/transparency_log.py:334-365 | the reading loop computes the recursive reading of the translated text, with the fault of the first bad line |
| Merkle.SplitBounds | src/skill_native/transparency_log.py:490-493 | the split k of n is a power of two with k < n <= 2k |
| Merkle.FollowPath | src/skill_native/transparency_log.py:117-128 | the loop of the receipt validator computes the fold of the path |
| Merkle.PathReachesRoot | src/skill_native/transparency_log.py:457-487 | the path built for any index folds to the root, and is no longer than the bit length of n - 1 |
| Merkle.RootInjective | src/skill_native/transparency_log.py:447-466 | without collisions, two lists of any lengths with the same root are equal |
| Merkle.FoldSound | src/skill_native/transparency_log.py:117-128 | without collisions, a path that folds to the root of a list starts at the entry in the position its sides spell, and is the path built for that position |
| Merkle.SevenLeafExample | src/skill_native/transparency_log.py:457-487 | the root and audit paths of the seven-leaf tree drawn in section 2.1.3 of RFC 6962 |
| LogChain.ValidateEntryChain | src/skill_native/transparency_log.py:393-406 | the pass with a seen-set and a running digest finds the first entry that breaks the chain, and none exactly for a valid chain |
| LogChain.VerifyExact | src/skill_native/transparency_log.py:305-332 | verification accepts exactly the canonical lines of a valid chain with the checkpoint of those entries, or nothing at all where that is allowed |
| LogChain.RootFixesLog | src/skill_native/transparency_log.py:409-423 | without collisions the checkpoint's root fixes every field of every entry and their number |
| LogChain.HeadFixesLog | src/skill_native/transparency_log.py:393-423 | without collisions the head digest alone fixes the whole chain |
| LogChain.CheckpointFixesLog | src/skill_native/transparency_log.py:305-332 | against the checkpoint built from L, verification accepts a log exactly when its text is that of L |
| LogReceipts.BuiltReceiptValid | src/skill_native/transparency_log.py:426-444 | a built receipt passes the receipt validator |
| LogReceipts.ReceiptExact | src/skill_native/transparency_log.py:255-296 | a receipt is accepted exactly when the log starts with a valid chain of the checkpoint's size and the receipt is the one built for its index there |
| LogReceipts.ReceiptPinsHistory | src/skill_native/transparency_log.py:255-296 | a log that accepts a receipt issued for L starts with L |
| LogReceipts.AppendSucceeds | src/skill_native/transparency_log.py:186-231 | appending a new envelope to a consistent log keeps the text, adds one line and its checkpoint, and returns the receipt of the last position |
| LogReceipts.EmptyConsistent | src/skill_native/transparency_log.py:305-332 | a log never written to agrees with the empty list of entries, and with no other |
| LogReceipts.AppendExact | src/skill_native/transparency_log.py:186-231 | an append succeeds exactly when log and checkpoint agree on some entries and the envelope is not among them |
| LogReceipts.AppendAllExtends | src/skill_native/transparency_log.py:153-231 | any run of appends only adds entries and keeps the files consistent |
| LogReceipts.ReceiptPermanence | src/skill_native/transparency_log.py:153-296 | a receipt returned by an append is accepted, at the same index, after any later appends |
| TransparencyLog.Log.Append | src/skill_native/transparency_log.py:153-231 | the method makes the specified append, changes nothing when it refuses, and what it returns verifies at once |
| TransparencyLog.Log.Check | src/skill_native/transparency_log.py:305-332 | the method computes the specified verification, with the same faults |
| TransparencyLog.Log.Verify | src/skill_native/transparency_log.py:233-253 | it accepts exactly the files that are consistent with some list of entries |
| TransparencyLog.Log.VerifyReceipt | src/skill_native/transparency_log.py:255-296 | it raises exactly the fault of the specified receipt check |
| LogProtocol.NextInv | src/skill_native/transparency_log.py:186-253 | every step of every process, and a crash at any point, keeps the lock discipline and the agreement of both files with what is published |
| LogProtocol.RunInv | src/skill_native/transparency_log.py:186-253 | the invariant holds after every run |
| LogProtocol.RunSafe | src/skill_native/transparency_log.py:186-253 | over any interleaving with crashes no complete line is lost or changed, and an accepting verifier saw exactly the published chain with its own checkpoint |
| LogProtocol.AcceptedIsPublished | src/skill_native/transparency_log.py:233-253 | what a verifier accepts is the published list and its checkpoint |
| LogProtocol.DamageRefused | src/skill_native/transparency_log.py:208-231 | between the first character of a line and its checkpoint, any check refuses |
| LogProtocol.DamagePermanent | src/skill_native/transparency_log.py:208-231 | from a log with a begun line that nobody is writing, every later verify and append refuses and the files never change |
| LogCrash.CrashDamages | src/skill_native/transparency_log.py:208-231 | a crash leaves such a log exactly when it hits a process that has written part of its line, or all, and not replaced the checkpoint |
| LogCrash.RunDamaged | src/skill_native/transparency_log.py:186-253 | at the end of any run the log is in that state exactly when it was at the start or some process died midway |
| LogCrash.RefusedExactly | src/skill_native/transparency_log.py:186-247 | from any consistent log, while no line is being written, the check of append refuses exactly when some process died midway |
| LogCrash.CrashForEver | src/skill_native/transparency_log.py:208-247 | after a death midway the files never change and every verify and append refuses, whatever is done later |
| LogCrash.CrashReached | src/skill_native/transparency_log.py:208-231 | on any consistent log an append of a new envelope can die after any number of characters of its line, and the log is then refused |
| LogRefinement.CommitNext | src/skill_native/transparency_log.py:186-231 | the step that replaces the checkpoint is the atomic append of what that process asked to publish |
| LogRefinement.RunRefines | src/skill_native/transparency_log.py:186-231 | for every run the files, up to an unfinished line, are those of the atomic appends of what was committed in commit order, and the receipts returned are theirs, in order, but for those lost or pending |
| LogRefinement.RefusedOverRuns | src/skill_native/transparency_log.py:186-231 | after any run, the check of an append turns its process away exactly when the atomic append of what that process asked for would be refused after those committed so far, or some process died midway before |
| LogProtocol.IssuedAccepted | src/skill_native/transparency_log.py:255-296 | at any moment of any run a returned receipt is accepted exactly when the log does not end in a torn line |
| LogProtocol.SoloAppend | src/skill_native/transparency_log.py:186-231 | the steps of one undisturbed append are enabled and amount to the atomic append |
| Dsse.DecodePaeExact | src/skill_native/attestation_crypto.py:33-43 | a decoder by decimal lengths accepts a byte string as (type, payload) exactly when it is their encoding |
| Dsse.PaeInjective | src/skill_native/attestation_crypto.py:33-43 | equal encodings have equal payload types and payloads |
| TreeStream.DigestTree | src/skill_native/provenance.py:29-39 | the hashing loop feeds the hasher exactly the stream of the sorted files, and fails exactly on a length of 2^64 or more |
| TreeStream.KeyOrder | src/skill_native/provenance.py:32 | the sort key orders paths part by part, as Python's paths are ordered on POSIX systems |
| TreeStream.WalkIrrelevant | src/skill_native/provenance.py:32 | the order in which the directory walk yields the files has no influence on what is hashed |
| TreeStream.TreeFixesDigest | src/skill_native/provenance.py:29-39 | the same files have the same digest, however they are walked |
| TreeStream.DecodeStreamExact | src/skill_native/provenance.py:29-39 | a decoder accepts a byte string as a list of files exactly when it is their stream |
| TreeStream.DigestFixesTree | src/skill_native/provenance.py:29-39 | without a collision, equal digests mean the same set of paths with the same contents |
| ShellQuote.CommandLineReadBack | src/skill_native/cloudflare_runtime.py:89-93 | the shell splits the space-joined quoted arguments into exactly the argument list |
| ShellQuote.QuoteReadBack | src/skill_native/cloudflare_runtime.py:148-149 | one quoted argument is read as one word with its text, whatever follows |
| ShellQuote.CommandLineInjective | src/skill_native/cloudflare_runtime.py:89-93 | different argument lists give different command lines |
| Snapshot.FirstAmong | src/skill_native/run_artifact_derived.py:368-383 | the recursive definition of which digest comes first finds one exactly when some nested mapping has one |
| Snapshot.FindSnapshotDigest | src/skill_native/run_artifact_derived.py:368-383 | the stack search ends and returns the digest that comes first by the recursive definition, one of those there are |
| GraphProperties.EdgesRaise | src/skill_native/run_artifact_graph.py:178-271 | every edge of a buildable graph joins two of its nodes, from a lower to a higher rank of kind |
| GraphReach.PathRises | src/skill_native/run_artifact_graph.py:178-271 | along any path the rank rises with every edge |
| GraphReach.NeverBack | src/skill_native/run_artifact_graph.py:178-271 | there is no cycle |
| GraphReach.ReachesVerdict | src/skill_native/run_artifact_graph.py:178-271 | a node other than the verdict has a path to it exactly when it is no unresolved reference |
| GraphReach.BuildableSound | src/skill_native/run_artifact_graph.py:104-271 | a buildable graph has unique ids, one verdict node, and from every inner node an edge towards the verdict |
| GraphReferences.CheckResolves | src/skill_native/run_artifact_graph.py:83-231 | each evidence id of a check is carried by exactly one node, and the check has an edge to it |
| GraphReferences.UnresolvedExact | src/skill_native/run_artifact_graph.py:250-271 | there is an unresolved reference exactly when a finding names an id that no evidence object carries |
| GraphReferences.UnresolvedMeansFailing | src/skill_native/run_artifact_graph.py:250-271 | in a graph that is built, an unresolved reference means that neither status nor gate is a pass |
| GraphReferences.RepeatedMissing | src/skill_native/run_artifact_common.py:203-210 | two findings that name the same unknown id are always refused |
| GraphIds.ItemsPlaced | src/skill_native/run_artifact_graph.py:302-354 | no two evidence objects share channel and position |
| GraphDistinct.NodeIdsExact | src/skill_native/run_artifact_graph.py:187-269 | no node id repeats exactly when no two checks and no two findings are equal up to the order of members, and no two findings name the same unknown id |
| GraphDistinct.EdgesApart | src/skill_native/run_artifact_graph.py:178-271 | where no node id repeats, no two edges agree in both ends and relation |
| GraphDistinct.BuildableExact | src/skill_native/run_artifact_common.py:203-210 | with a digest that takes two values for equal exactly when they are so up to the order of members, a graph is built exactly when each part is acceptable, no check or finding repeats up to that order, and no two findings name the same unknown id |
| GraphBuilder.AddItems | src/skill_native/run_artifact_graph.py:187-200 | the loop over evidence objects fails exactly when an id repeats, and otherwise adds the expected nodes, edges and index |
| GraphBuilder.AddCheck | src/skill_native/run_artifact_graph.py:203-231 | one check is accepted exactly when it is an object whose evidence ids are a list of different known ids, and adds its node and edges |
| GraphBuilder.AddFinding | src/skill_native/run_artifact_graph.py:236-271 | one finding is refused exactly when it is no object, or names an unknown id under a passing verdict |
| GraphBuilder.BuildGraph | src/skill_native/run_artifact_graph.py:20-282 | a graph is returned exactly for buildable inputs, sorted by id with the expected contents; it is acyclic, never dangling, and exactly its unresolved references do not reach the verdict |
| Strings.SortStable | src/skill_native/providers.py:216-222 | sorting keeps elements with equal keys in order and neither loses nor doubles any |
| Strings.SortDistinct | src/skill_native/run_artifact_common.py:203-210 | the duplicate check on the sorted list finds exactly the duplicates of the unsorted one |
| Replay.Classify | src/skill_native/run_artifact_derived.py:51-67 | the class and sorted reasons, each reason present exactly when its condition fails |
| Replay.BuildReplay | src/skill_native/run_artifact_derived.py:30-89 | a manifest is built exactly when the fields are in form; it passes its validator, and is exact just for a restorable runtime, a captured digest and a pinned image |
| LogicalTrace.BuildTrace | src/skill_native/run_artifact_derived.py:92-215 | a trace is built exactly when the five cut digests differ; parents are always known |
| LogicalTrace.SpansDistinct | src/skill_native/run_artifact_derived.py:104-128 | span names differ, so only a collision of cut digests can make ids repeat |
| LogicalTrace.AttributesCarried | src/skill_native/run_artifact_bundle.py:57-72 | the digests that the bundle validator looks for among the span attributes are always there |
| Scorecard.FindFailures | src/skill_native/run_artifact_derived.py:252-263 | the failure list is sorted, holds exactly the failures there are, and is empty exactly when there is none |
| Scorecard.ScoreBounds | src/skill_native/run_artifact_derived.py:285-292 | the score lies between 0 and 100 |
| Scorecard.AssembledValid | src/skill_native/run_artifact_contract.py:162-225 | a card assembled from counts in range and a pass-or-fail verdict passes the scorecard validator |
| Scorecard.BuildScorecard | src/skill_native/run_artifact_derived.py:220-352 | the card states the counts, rates and failures of its inputs, and passes its validator |
| Continuity.VerdictMeaning | src/skill_native/run_artifact_builder.py:146-169 | in a consistent verdict a severe finding fails the gate, a failed gate fails the verdict, and the verdict passes exactly when every check that is a mapping did |
| Builder.BundleExact | src/skill_native/run_artifact_bundle.py:19-73 | of all cross checks between the assembled parts, those on the trace included, only the one on the runtime node can fail, and it does exactly when the runtime section is digested differently from its three known keys |
| Builder.PlainRuntimeExact | src/skill_native/run_artifact_bundle.py:27-40 | with a digest that takes the two for equal exactly when they are so up to the order of members, the check on the runtime node holds exactly when the runtime section has its three keys and no other |
| Builder.ExtraRuntimeKey | src/skill_native/run_artifact_bundle.py:27-40 | with a digest that tells key sets apart, a further key in the runtime section is always refused |
| Builder.NoFailures | src/skill_native/run_artifact_derived.py:265-279 | continuity, the graph's refusal of checks that are no objects and the scorecard together leave no provisional card |
| Builder.Build | src/skill_native/run_artifact_builder.py:21-95 | a bundle is built exactly from what can be bundled and passes the validators; its card is rank-eligible exactly when it lists no failure and scores 0 with a severe finding; unresolved references need status and gate both "fail" |
| Wilson.IntervalIsScoreRegion | src/skill_native/scoring.py:53-60 | for at least one trial the interval is exactly the set of t with n(p-t)^2 <= z^2 t(1-t); it contains p and the clamps change nothing |
| Wilson.FormulasAgree | src/skill_native/reporting.py:31-38 | the two formulas agree exactly where there is at least one trial |
| Routing.Complete | src/skill_native/providers.py:230-258 | candidates are asked in order up to the first whose reply does not allow failover; the receipts, outcome and number of attempts follow from that |
| Routing.Candidates | src/skill_native/providers.py:212-222 | exactly the enabled providers with the pinned name, if any; local before free before others, by name within a class |
| Routing.CandidatesExact | src/skill_native/providers.py:212-222 | each as often as it was configured, and those that rank the same in the configured order |
| Routing.RouteReceipts | src/skill_native/providers.py:230-258 | every attempt leaves a receipt, apart from a last one whose reply cannot be read; a pinned provider is asked at most once |
| Gateway.CostBudget | src/skill_native/policy.py:65-72 | over receipts as the router makes them, the cost budget refuses exactly when it is set to 0 or less, under any policy |
| Gateway.Gateway.CostBySign | src/skill_native/policy.py:65-72 | so on the gateway's own ledger the budget check depends on the cost limit by its sign alone |
| Gateway.Gateway.PersistNewReceipts | src/skill_native/gateway.py:38-48 | the loop appends exactly the receipts of the call, in order |
| Gateway.Gateway.ChatCompletions | src/skill_native/gateway.py:50-123 | which response each case gives, what is recorded, and that a call made alone overshoots the budget by at most its candidates |
| GatewayProtocol.NextInv | src/skill_native/gateway.py:50-101 | fixing the day of a call's budget check, reading the ledger for that day, routing, each single write, also of a receipt stamped on an earlier day, and midnight between any two of them keep the budget invariant and account for every attempt |
| GatewayProtocol.RunBounded | src/skill_native/gateway.py:50-101 | on every day of every run with at most K calls in flight and C candidates each, the ledger holds at most M - 1 + K*C receipts of that day, and none when M = 0 |
| GatewayOvershoot.BoundReached | src/skill_native/gateway.py:50-101 | for positive M, K and C some run ends a day with exactly M - 1 + K*C receipts, so the bound is the best there is |
| GatewayProtocol.NothingAsked | src/skill_native/gateway.py:50-61 | with M = 0 no provider is ever asked |
| GatewayProtocol.Unrecorded | src/skill_native/gateway.py:73-101 | under any positive budget, any number of requests can be made in a day with none recorded |
| GatewayProtocol.LostExactly | src/skill_native/gateway.py:73-101 | attempts are lost exactly where a reply so far could not be read |
| GatewayProtocol.AttemptsRecorded | src/skill_native/gateway.py:73-101 | while no call is in flight, the ledger has a record for each attempt exactly when every reply so far could be read |
| BrowserRecorder.KeptAll | src/skill_native/browser_runner.py:226-234 | the console keeps everything exactly when everything fits the byte budget |
| BrowserRecorder.Recorder.AddEvent | src/skill_native/browser_runner.py:204-216 | events stored are the first ones offered, numbered by position, within budget; the flag is up exactly when one was dropped |
| BrowserRecorder.Recorder.AddNetwork | src/skill_native/browser_runner.py:218-224 | the same for network events |
| BrowserRecorder.Recorder.AddConsole | src/skill_native/browser_runner.py:226-234 | console bytes are the sum of the stored texts and within budget; the flag is up exactly when a message was dropped |
| BrowserRecorder.Recorder.AddViolation | src/skill_native/browser_runner.py:236-239 | a violation is added to the list unless it is there already, and also recorded as an event |
| BrowserRecorder.Recorder.RecordAction | src/skill_native/browser_runner.py:400-421 | the outcome of an action is noted under its id, and recorded as an event |
| BrowserRecorder.Recorder.Decide | src/skill_native/browser_runner.py:475-498 | exactly when a run passes, and that one that passes dropped nothing |
| BrowserRecorder.ArtifactStore.Register | src/skill_native/browser_runner.py:153-182 | an artifact is taken exactly when the total stays within the limit; the total is the sum of the sizes |
| BrowserRecorder.ArtifactStore.WriteText | src/skill_native/browser_runner.py:61-95 | a text is taken exactly when it fits its own limit and the total |
| BrowserRecorder.ArtifactStore.Download | src/skill_native/browser_runner.py:116-134 | an oversized download is refused, but stays registered |
| WorkspaceDiff.BuildWorkspaceDiff | src/skill_native/coding_agent.py:628-698 | the changes are exactly the differing paths, sorted, empty iff the snapshots are equal; applied to the earlier snapshot they give the later one, undone the earlier; counts and path lists are exact |
| WorkspaceDiff.RebuildsExactly | src/skill_native/coding_agent.py:644-663 | applying the diff rebuilds every field exactly when no differing path ends as a link out of the workspace |
| WorkspaceDiff.FlagNotCarried | src/skill_native/coding_agent.py:34-40 | two snapshots that differ only in that flag, which the diff does not rebuild |
| StreamCapture.StreamAccumulator.Consume | src/skill_native/coding_agent.py:50-70 | however the stream is cut, the captured bytes are its longest prefix within the limit, and the truncation flag tells whether that is all |

## Left out

- SHA-256 and Ed25519: the hash is an arbitrary function; absence of collisions is a hypothesis on named inputs. `verify_attestation` is a parameter of `TransparencyLog.Log.Append` (what it hands over, or a refusal).
- Files: symlink refusal, open flags, permissions and fsync. Writes are ordered, the last line may be torn, and the checkpoint is replaced at once; a checkpoint file is absent, unparseable, or holds a record.
- UTF-8: the log is modelled as characters. A byte that is not UTF-8 makes the source refuse the log, and canonical lines are ASCII.
- LogText.ReadEntries: does not tell apart an invalid entry from a valid one in non-canonical form; the source gives them different messages.
- JSON beyond the fixed fields of a log entry: parsing of checkpoint and receipt files is left to Pydantic; they enter as records.
- TreeStream.DigestTree: sorts paths as Python does on POSIX systems; the case-folding order of Windows is not modelled.
- ShellQuote.CommandLineReadBack: the tokenizer refuses expansions and operators outside single quotes rather than modelling them; quoted text never contains any.
- Self digests of graph, manifest, trace, scorecard and bundle: each builder computes the digest that its validator compares, so they never differ.
- Builder.Build: an authority comes in already validated.
- Json.Str: `str` of a value that is not a string is an arbitrary function.
- Json.Lower: lowers ASCII letters and the Kelvin sign alone, which is all that comparisons with ASCII texts can see.
- Floating point: rates, scores and intervals are reals, `round(x, 2)` rounds half to even on hundredths, and a square root is the exact one.
- Confounders other than the runtime, and the remaining fields copied unchanged into manifest and scorecard.
- Gateway.Gateway.ChatCompletions: one call, with its whole effect on one day and no other call between; `GatewayProtocol` has the interleavings. Failing ledger writes and unreadable ledger lines are not modelled.
- GatewayProtocol.RunBounded: counts requests; tokens of a call are whatever the provider reports, so no bound on them follows.
- BrowserRecorder.Recorder.Decide: the page, the actions and their checks are outside; what they record comes in through the recorder's methods in any order.
- WorkspaceDiff.BuildWorkspaceDiff: glob matching is an arbitrary predicate on paths; the digests of the two snapshots are not modelled.
- Pydantic field patterns, `evaluate_cases`, `_manifest_diff`, percentiles and other tallies: easy members.
- HTTP, Playwright, subprocesses, OpenShell and Cloudflare services, command lines, TypeScript workers, templates and registries: input and output only.
