# Axym: a verified model of the evidence core

Axym keeps signed evidence about governed AI actions in an append-only, hash-linked store and
derives verdicts from it. This project models the parts of it that decide something, in Dafny, and
proves what those decisions mean over whole histories, chains and runs.

| files | component |
|---|---|
| `Lifecycle`, `LifecycleHistory`, `LifecycleProtocol` | the lifecycle reducer and timelines: a transition table of 26 event kinds, what an accepted history says about its whole past, and the same table read by events |
| `Dedupe`, `Receipts`, `Registry`, `Disk`, `ReceiptMeaning` | the bounded dedupe index, the receipts of lifecycle records, the registry of verified records, and the three files of a store with the fate of every write |
| `Store`, `StoreInvariants`, `StoreRuns`, `StoreCache`, `StoreKeys`, `StoreAnswers` | the append with its rollback, what each append keeps, all runs with failures and crashes anywhere, when the index stops being a mere cache, what a key stands for, and what each answer says |
| `Json`, `Gate`, `GateTokens`, `GateChains`, `GateBudgets`, `GateIssuing` | delegation tokens and what each must hold, attenuation along chains of any length, and which lists of hop budgets a chain can carry |
| `Control`, `ControlProtocol`, `ControlMeaning` | the request/response protocol of control events |
| `Matcher`, `MatcherMeaning`, `MatcherChoice`, `MatcherWindows` | the compliance matcher, its choice among alternative evidence sets, and what frequency windows do to its verdicts |
| `Packet`, `PacketLaws`, `PacketMeaning` | the seventeen-axis completeness of a packet and its projection to lifecycle events |
| `Identity`, `IdentityFixpoint`, `IdentityMeaning` | deriving an identity view and writing it back |
| `Conformance`, `ConformanceMeaning`, `Drift`, `DriftMeaning` | proposal/activation conformance and privilege drift |
| `Prelude`, `Text`, `TextLaws`, `Sorting` | option type, Go's string order and trimming, stable sorting |

The files named `...Meaning`, with `LifecycleProtocol`, `GateTokens`, `StoreKeys`, `StoreAnswers` and
`TextLaws`, say what the results mean in terms of the data handed in, key by key and text by text,
without naming the functions that compute them.

Code that updates state in Go is a method or a class here, proved against a specification function;
the lemmas are about those functions, so they hold of the methods. Records, events and JSON values
are datatypes. A timestamp is its text together with the instant it parses to, if any. Signatures,
canonical digests and schema validation are supplied functions.

Assumptions, each a `requires` where it is used: the signing key does not change and verifies what
it signs (`KeyWorks`); the content digest is injective (`InjectiveContent`, for `ReceiptBindsContent`
only); callers pass the key that `BuildKey` gives the record (`Canonical`); a record id is determined
by the content that determines the key (`RequestsNameKeys`); an issuer's signatures verify within its
window (`Issues`, in `GateIssuing` only); a month before an instant is not after it (`Calendar`, in
`MatcherWindows` only); a write that fails leaves its file as it
was, and a crash leaves a file either old or new (`Disk.Fate`).

## Where the code does not do what one may expect

- `revoking` is in the transition table but never entered, so `revocation_acknowledged` is never
  accepted; `approved` can only be the second event and is never followed directly by `activated`
  (`DeadTransitions`).
- The comparator of the reducer is no order when some timestamps parse and others do not
  (`ComparatorCycles`); every such list is rejected whatever the sort does (`UnparseableRejected`).
- The dedupe index stops being a pure cache in exactly one case: a registration failed, the chain was
  restored, and the index was not, while it still held the new key (`CacheStaysSound`). Whether it will
  is settled before the append, unless the index is full of entries as recent as the new one
  (`CacheSoundnessDecided`, `CacheLostIff`). From then on every retry is refused for as long as the
  index holds the key, whatever else is appended in between (`RetriesRefused`).
- A JSON `null` document is passed over in silence, so a chain of nothing else, and only such a chain,
  is reported as an authority lineage without tokens (`NullChain`, `EmptyLineage`).
- The hop budget m bounds a chain to m hops when budgets are whole numbers (`HopBudget`) or m is at
  most one (`SmallBudgetStops`). In general k hops need (k - 1) * u <= m - 1, where u is the unit in
  which budgets come (`LineageUnitBound`), and that bound is met (`UnitBoundIsMet`): from m = 1.5,
  budgets in quarters allow three hops. The budgets a lineage can carry are exactly the falling
  lists whose members but the last are at least one (`LineageBudgetsFall`, `FallingBudgetsAccepted`).
  float64 numbers of at least one come in units of 2^-52, so a chain is always finite.
- Two records share a dedupe key exactly when product, type and event hash agree, as long as product
  and type do not contain `|` (`KeysAreEvents`); otherwise different ones can collide
  (`SeparatorCollides`).
- The approval value orders first by whether approval is required and then by count, but only below a
  hundred approvals (`ApprovalTightens`): `false|101` counts as stricter than `true|0`
  (`ManyApprovalsOutweigh`), and a requirement newly made may ask for fewer.
- A malformed source digest is reported as a lack of digest-bound evidence; the fault for it can never
  be reached (`FaultIsCause`).
- With a frequency window, more evidence can lower a verdict, for each of the four frequencies
  (`WindowBreaksMonotonicity`). It does so exactly when a set was satisfied and no longer is
  (`StatusFallsIff`), and never while the window stays where it was (`WindowHoldsStatus`).
- A containment whose state is `failed` counts as contained (`GapEvidenceIsGapEvent`).
- The exception list of a weakened comparison is settled only as a multiset: its order is that of the
  map iteration (`IterationOrderIrrelevant`, `WeakenedOrderOpen`).
- The second identity pass disagrees with the first exactly when the event's downstream key is present
  but blank, nothing ranks before the written chain, and that chain ends elsewhere (`Fixpoint`).

## Model

| member | source | states |
|---|---|---|
| Lifecycle.ReduceChecked | core/governance/reducer.go:43-160 | the reducer, loop and all, is the specified fold of the sorted events, fault for fault |
| Lifecycle.ReduceVerified | core/governance/reducer.go:34-41 | one unbound event makes the whole history unverifiable; otherwise it is the plain replay |
| Lifecycle.RemoveReason | core/governance/reducer.go:181-189 | the in-place filter leaves exactly the other codes, in order |
| Lifecycle.HasBlockingGap | core/governance/reducer.go:191-199 | true iff one of the five gap codes is present |
| Lifecycle.ProjectTimeline | core/governance/graph.go:127-145 | the timeline holds the sorted events and the state of the strict or plain replay |
| LifecycleHistory.ReplayOrderIndependent | core/governance/reducer.go:43-47 | every permutation, under every result the sort may return, is accepted or rejected alike, with the same state |
| LifecycleHistory.ComparatorCycles | core/governance/reducer.go:166-179 | three events, one with an unparseable timestamp, on which the comparator is cyclic |
| LifecycleHistory.UnparseableRejected | core/governance/reducer.go:77-79 | a list with an unparseable timestamp is rejected in every arrangement |
| LifecycleHistory.TimelineOrderIndependent | core/governance/graph.go:127-145 | permutations give one timeline, sorted, whose state lists the ids of its events and equals the plain replay |
| LifecycleHistory.VerifiedIsBoundReplay | core/governance/reducer.go:34-41 | the strict entry point accepts exactly the digest-bound histories that replay accepts, with the same state |
| LifecycleHistory.AcceptedFacts | core/governance/reducer.go:71-98 | in an accepted history ids are distinct, every timestamp parses, and the state lists exactly the ids in order |
| LifecycleHistory.CompleteJudgesWholeHistory | core/governance/reducer.go:114-159 | complete iff the final status is terminal and no gap-bearing event was accepted at any point, earlier activations included |
| LifecycleHistory.ReasonCodesAreHistory | core/governance/reducer.go:114-152 | the codes are those all events emitted, in order, less the compensation requirements raised before the last completed compensation |
| LifecycleHistory.OutstandingCompensation | core/governance/reducer.go:122-152 | the missing-compensation code is present iff some requirement follows the last completed compensation |
| LifecycleHistory.RunInvariant | core/governance/reducer.go:51-113 | the counting law with the slack of the current status; the revoking status is never reached |
| LifecycleHistory.RunCounting | core/governance/reducer.go:51-113 | in every prefix, successes and failures never outnumber starts, nor starts approvals and activations |
| LifecycleHistory.OpensOnce | core/governance/reducer.go:51-95 | the first event, and no other, is proposed or registered |
| LifecycleHistory.DeadTransitions | core/governance/reducer.go:52 | approval is at most the second event and not followed by activation; a revocation is never acknowledged |
| LifecycleHistory.ActivationBetweenStarts | core/governance/reducer.go:51-63 | between two execution starts there is an activation |
| LifecycleProtocol.StatusIsDecided | core/governance/reducer.go:94-157 | the status is decided by the last event that is not a mere remark: succeeded iff that is execution_succeeded or effect_validated, failed iff execution_failed or effect_rejected, and so for every status |
| LifecycleProtocol.AcceptedIffLawful | core/governance/reducer.go:51-98 | a history is accepted iff each event names the contract with all of its evidence or none, is new, has an instant, and may follow the event that decided the status before it |
| LifecycleProtocol.FaultIsCause | core/governance/reducer.go:64-96 | a rejected history stops at its first unlawful event with the state before it, and the fault says what is wrong with that event |
| LifecycleProtocol.CompleteIsDecided | core/governance/reducer.go:114-159 | complete iff the deciding event is an outcome, a validated or rejected effect, a compensation or a settled containment, and no event left a gap |
| LifecycleProtocol.CodesAreRaised | core/governance/reducer.go:114-152 | each reason code stands iff some event of its kinds raised it, after the last compensation for the missing one |
| LifecycleProtocol.DigestsListed | core/governance/reducer.go:97-102 | the state lists the digests of the history in order |
| LifecycleProtocol.ReplayedByInstant | core/governance/reducer.go:43-47 | an accepted replay takes its events by instant, and by id where instants coincide |
| LifecycleProtocol.UnboundIsUnverifiable | core/governance/reducer.go:34-41 | one event without a complete reference and digest makes the strict result unverifiable and empty |
| TextLaws.LessAtFirstDifference | core/governance/reducer.go:166-179 | the string order is decided at the first difference |
| TextLaws.SpacesAre | core/normalize/identity.go:239-253 | which characters count as spaces |
| TextLaws.Trimmed | core/normalize/identity.go:239-253 | trimming takes away spaces at both ends and nothing else |
| Dedupe.Index.constructor | core/store/dedupe/index.go:26-34 | non-positive settings become a day and ten thousand entries |
| Dedupe.Index.Purge | core/store/dedupe/index.go:91-97 | exactly the unexpired entries remain |
| Dedupe.Index.Seen | core/store/dedupe/index.go:50-63 | true iff an unexpired entry is held; only that entry's last-seen time moves |
| Dedupe.Index.Mark | core/store/dedupe/index.go:65-89 | the new entry, purging, and eviction of a least recently seen set, whatever the map order and ties |
| Dedupe.MarkBounds | core/store/dedupe/index.go:65-97 | after a mark: at most MaxSize entries, none expired, none evicted that was seen later than one kept |
| Dedupe.MarkSurvives | core/store/dedupe/index.go:65-89 | a marked key outlives the eviction while fewer than MaxSize live entries of other keys were seen at that moment or later |
| Dedupe.MarkMayGo | core/store/dedupe/index.go:65-89 | otherwise some order among equally old entries evicts it |
| Dedupe.EntriesComeFromMarks | core/store/dedupe/index.go:50-97 | over any run, every entry was put there by a mark and carries its expiry |
| Dedupe.SeenImpliesMarked | core/store/dedupe/index.go:50-97 | a positive answer at `now` implies an earlier mark at t with t + TTL after `now` |
| Receipts.Draft.SignLifecycleReceipt | core/store/lifecycle_receipt.go:47-93 | on success the record carries the signed receipt; on each error it is untouched |
| Receipts.SignThenVerify | core/store/lifecycle_receipt.go:47-135 | a signed record verifies, also after any re-linking into a chain |
| Receipts.ReceiptIgnoresLinkage | core/store/lifecycle_receipt.go:152-174 | changing the chain linkage changes no verification result |
| Receipts.ReceiptBindsContent | core/store/lifecycle_receipt.go:95-135 | two records that verify with one receipt differ at most in linkage |
| ReceiptMeaning.AcceptedMeans | core/store/lifecycle_receipt.go:95-135 | a receipt is accepted iff the lifecycle record carries it and it speaks of the record and key, covers the content, verifies under the key over its own digest, and tells the same origin |
| ReceiptMeaning.RefusedMeans | core/store/lifecycle_receipt.go:95-135 | which error each failing check gives, first failure first |
| ReceiptMeaning.SignedMeans | core/store/lifecycle_receipt.go:47-93 | signing adds a receipt made from the record, signed by the key over its own digest, and changes nothing else |
| Registry.RegisterVerifiedLifecycle | core/governance/verified_registry.go:25-66 | the upsert: refused unless the record and its receipt verify, else the file is the old table with this entry, in key order |
| Registry.VerifyRegisteredLifecycle | core/governance/verified_registry.go:68-93 | true iff the receipt verifies and the file holds exactly the record's entry |
| Registry.VerifyLifecycleRecordsWithRegistry | core/governance/verified_registry.go:95-112 | true iff every lifecycle record in the list is backed by the registry |
| Registry.RegistrationTakes | core/governance/verified_registry.go:25-93 | a landed registration makes the membership check succeed, whatever the file held |
| Registry.UpsertKeeps | core/governance/verified_registry.go:36-66 | an upsert keeps one entry per id and every entry with another id |
| Registry.OthersSurvive | core/governance/verified_registry.go:25-93 | registering one record changes the standing of no record with another id |
| ReceiptMeaning.EntryMeans | core/governance/verified_registry.go:114-128 | a record is entered iff it claims to be verified, authoritative and no fixture, has its digests, and carries an accepted receipt; the entry holds its id, hash, source digest and receipt |
| ReceiptMeaning.RegistrationMeans | core/governance/verified_registry.go:25-66 | how an attempt to register ends, and that the file then holds one entry of the id, the record's |
| ReceiptMeaning.FileAscends | core/governance/verified_registry.go:52-60 | the file is rewritten in the order of the ids |
| Store.EvidenceStore.AppendRecord | core/store/store.go:191-302 | admission, duplicate branch, the three writes and the rollback, for every fate of every write |
| Store.EvidenceStore.Append | core/store/store.go:161-166 | lifecycle records are turned away with the files untouched; others take the append |
| Store.EvidenceStore.AppendVerifiedLifecycle | core/store/store.go:173-189 | without a verifying receipt nothing is touched; with one, the append runs with the registration callback |
| Store.EvidenceStore.HasKey | core/store/store.go:441-453 | true iff some chain record has the key |
| Store.EvidenceStore.Rollback | core/store/store.go:282-291 | chain first, then index; a failed restoring write is ignored, a crash ends it |
| StoreInvariants.ChainCases | core/store/store.go:191-302 | the stored chain stays or grows by the sealed record; what each outcome allows |
| StoreAnswers.SuccessMeans | core/store/store.go:251-301 | success stores exactly the signed record at the end and tells the new head, count and id; a duplicate tells the old head and count |
| StoreAnswers.RefusalMeans | core/store/store.go:191-293 | a refusal always says what is so, and a request that fails the first checks changes nothing |
| StoreAnswers.RollbackMeans | core/store/store.go:282-291 | each file is restored as its own restoring write ends, independently of the other |
| StoreAnswers.AppendedIsMarked | core/store/store.go:276-286 | after success the key is in the index with its full lifetime, where it is held |
| StoreKeys.KeysAreEvents | core/store/dedupe/index.go:36-48 | records whose product and type are free of the separator share a key iff product, type and event hash agree |
| StoreKeys.SeparatorCollides | core/store/dedupe/index.go:36-48 | with the separator in them, different products and types share a key |
| StoreKeys.KnownMeansSameEvent | core/store/store.go:218-219 | with a sound index an ingest is known iff the chain holds a record of the same product, type and event hash |
| StoreKeys.RunKnownMeansSameEvent | core/store/store.go:218-219 | so over any run without a stranded rollback no record of another event is dropped as a duplicate |
| StoreInvariants.AppendKeepsKeysDistinct | core/store/store.go:218-243 | no append adds a second record with an existing key, whatever the index holds and wherever a crash falls |
| StoreInvariants.AppendKeepsLinked | core/store/store.go:251-275 | the chain stays linked record to record, ending in the head hash |
| StoreInvariants.CacheStaysSound | core/store/store.go:218-293 | every index entry keeps naming a chain record iff no rollback was stranded between its two writes with the key still held |
| StoreCache.CacheSoundnessDecided | core/store/store.go:218-293 | told before the append: where the key will be held, soundness is lost iff the registration fails, the chain is restored and the index is not |
| StoreCache.CacheLostIff | core/store/store.go:218-293 | every outcome is unsound, in every eviction order, iff such a rollback is stranded and the key will be held |
| StoreInvariants.IndexOnlySpeedsUp | core/store/store.go:218-243 | with a sound index, chain, registry and answer are exactly those of an append without any index |
| StoreInvariants.FailureLeavesNoTrace | core/store/store.go:244-293 | an error with completed rollback leaves chain and registry as they were and the index up to expired entries |
| StoreInvariants.AppendKeepsReceipts | core/store/store.go:173-189 | every lifecycle record in the chain keeps a verifying receipt |
| StoreInvariants.NewIdIsFresh | core/store/store.go:218-231 | a record admitted as new has an id no chain record has |
| StoreInvariants.ProvenanceStep | core/store/store.go:218-293 | what one ingest does to the set of unregistered lifecycle records, outcome by outcome |
| StoreRuns.ReachableInvariant | core/store/store.go:191-302 | in every reachable state: distinct keys, linked chain, verifying receipts, one registry entry per id |
| StoreRuns.ReachableCacheSound | core/store/store.go:218-293 | over any run without a stranded rollback the index names only chain records |
| StoreRuns.OrphansAreInterrupted | core/store/store.go:173-302 | over any run with failures and crashes anywhere: a lifecycle record in the chain is unregistered only if an ingest of it died or failed without its chain restored, and no ingest of its id succeeded since |
| StoreRuns.RetriesRestoreProvenance | core/ingest/gait/ingest.go:190-241 | once every interrupted ingest was followed, at any distance, by a successful one of its id, nothing is unregistered |
| StoreRuns.ReachableProvenance | core/store/store.go:173-302 | an instance: without interruptions every lifecycle record stays registered through all later appends |
| StoreRuns.BundlePasses | core/governance/verified_registry.go:95-112 | where nothing is unregistered the whole chain passes the registry check |
| StoreRuns.CrashThenReingest | core/ingest/gait/ingest.go:210-241 | one crash and one retry from any state: nothing is left unregistered that was not so before, nor the record itself, and the retry takes the duplicate branch if the chain write had landed |
| StoreRuns.ReingestDedupes | core/store/store.go:218-243 | over any run, once a key is in the chain every later successful ingest with it takes the duplicate branch |
| StoreCache.StrandedBlocksRetry | core/store/store.go:218-293 | the failing family: after a stranded rollback with the key held, the record is nowhere in the chain and its retry is refused at any moment before expiry |
| StoreCache.RetryRefused | core/store/store.go:218-231 | in any state where the index holds a key that the chain does not, a retry is refused and changes nothing |
| StoreCache.RetriesRefused | core/store/store.go:218-231 | over any run from such a state, with any other ingests in between, every retry made while the index holds the key is refused without effect |
| Gate.VerifyGateChain | core/governance/gate.go:45-103 | both passes with count map and parent lookup; lineage, token ids and gaps exactly as specified |
| GateTokens.LineageIff | core/governance/gate.go:45-103 | a lineage is reported iff there are documents, all decode, and every token stands by itself, is the only one of its id, and attenuates the token it names |
| GateTokens.VerifiesIff | core/governance/gate.go:105-176 | a token verifies iff it is formed, refers fully or not at all, is not revoked, is signed by the key over its own digest, is in force, and attenuates its parent or refers to none |
| GateTokens.SubsetIff | core/governance/gate.go:288-372 | the subset check passes iff the child names parent and signature, takes over from the delegate, and narrows every grant; and which of its two refusals it gives otherwise |
| GateTokens.RefusalCodes | core/governance/gate.go:105-176 | the code of a refused token, by the first check that fails |
| GateTokens.ValidityCodes | core/governance/gate.go:153-163 | a signed token outside its time is malformed if it is never valid, expired otherwise |
| GateTokens.TokensIff | core/governance/gate.go:72-95 | the ids reported are those of the tokens that belong, lineage or not |
| GateTokens.CodesInOrder | core/governance/gate.go:96-102 | how the codes of one token are ordered in the report |
| GateTokens.LineageOrGaps | core/governance/gate.go:45-103 | a lineage is reported iff there are documents and no gaps; both lists are sorted |
| GateChains.LineageMeans | core/governance/gate.go:45-103 | lineage iff there are documents, all decode, and each token is unique, finds its parent and verifies against it |
| GateChains.NullChain | core/governance/gate.go:45-72 | a chain of `null` documents is reported as a lineage without tokens or gaps |
| GateChains.EmptyLineage | core/governance/gate.go:45-103 | a reported lineage is without tokens iff every document is `null` |
| GateChains.HopChecked | core/governance/gate.go:72-95 | in a lineage each child passed the subset check against the very token it names |
| GateChains.HopNarrows | core/governance/gate.go:288-372 | a passed subset check narrows scopes, limits and expiry, carries digests, and satisfies the depth rule |
| GateChains.PathNarrows | core/governance/gate.go:45-103 | along any parent path of a lineage scopes shrink, limits and expiry never grow, governing digests are unchanged |
| GateChains.HopBudget | core/governance/gate.go:348-370 | along a path of k hops from budget m: depth rises by k, and with whole budgets k <= m and at most m - k remains |
| GateChains.SmallBudgetStops | core/governance/gate.go:348-370 | a first budget of at most one allows one hop, whole or not |
| GateBudgets.UnitBound | core/governance/gate.go:348-370 | a falling list of budgets in units of u is no longer than the first budget allows: (k - 1) * u <= m - 1 |
| GateBudgets.LineageBudgetsFall | core/governance/gate.go:45-103 | along a path of a lineage that starts at a budget all tokens have one, they fall, and every parent's is at least one |
| GateBudgets.LineageUnitBound | core/governance/gate.go:348-370 | in a lineage with budgets in units of u, k hops from budget m need (k - 1) * u <= m - 1 |
| GateIssuing.FallingBudgetsAccepted | core/governance/gate.go:45-176 | conversely every falling list of budgets is carried by issued tokens that are reported as a lineage |
| GateIssuing.UnitBoundIsMet | core/governance/gate.go:348-370 | the bound is met for every unit and length; with u < 1 that is more hops than the budget says |
| GateIssuing.SomeIssuer | core/governance/gate.go:105-176 | there are environments and issuers for which the two results above speak of actual tokens |
| Control.Outstanding.VerifyPhase | core/governance/control.go:72-111 | one event against the table of outstanding requests: the new table, or the fault and the old one |
| Control.VerifyControlLifecycle | core/governance/control.go:30-70 | the whole document: report and first fault |
| ControlProtocol.AcceptedIffLawful | core/governance/control.go:72-111 | a sequence is accepted iff each event is lawful given the trace before it, a law stated without the table |
| ControlProtocol.StrictAlternation | core/governance/control.go:72-111 | ordinary commands strictly alternate, and a response stays within the request it answers |
| ControlProtocol.RequestedOnce | core/governance/control.go:72-111 | a revocation and each invalidation is requested at most once, and no invalidation after a revocation |
| ControlProtocol.InvalidationCaused | core/governance/control.go:72-111 | an invalidation response follows its own or a revocation request |
| ControlProtocol.DocumentAccepted | core/governance/control.go:30-70 | accepted iff ids are present and distinct, instants never go back, signatures hold and the control events are lawful |
| ControlMeaning.AcceptedInDocument | core/governance/control.go:30-136 | a document is accepted iff each record is new, timely and attested and each control event proper, all read key by key |
| ControlMeaning.PhaseMeans | core/governance/control.go:72-136 | which fault an event is refused with, and what an accepted one does to the table |
| ControlMeaning.ReportMeans | core/governance/control.go:30-70 | the report is never authoritative, quarantined whenever there is a record, a lineage iff there is no fault; its statuses are the kinds of the control records, and the fault blames the record where they stop |
| Matcher.EvaluateRequirementSet | core/compliance/match/matcher.go:183-314 | the record loop with all its counters, and the status, computes the specified result |
| Matcher.EvaluateControl | core/compliance/match/matcher.go:132-145 | the loop over alternatives returns the selected candidate |
| MatcherMeaning.StandingMeans | core/compliance/match/matcher.go:211-260 | a record is matched iff it is asked for, usable and lacks nothing; partial iff it lacks something and has some required field |
| MatcherMeaning.StatusMeans | core/compliance/match/matcher.go:263-286 | covered iff a record met in full is current, and one of every type if all are required; a gap iff none is met even in part |
| MatcherMeaning.CountsMean | core/compliance/match/matcher.go:206-261 | the counters count the records asked for, met, partly met and set aside |
| MatcherMeaning.ReasonsMean | core/compliance/match/matcher.go:263-306 | each reason code is given iff what it says is so |
| MatcherMeaning.EvidenceMeans | core/compliance/match/matcher.go:211-261 | the evidence lists the records asked for, in order, each with its standing and fields |
| MatcherMeaning.RemediationMeans | core/compliance/match/matcher.go:364-376 | a type is listed for remediation iff it is required and no usable record of it lies in the window |
| MatcherMeaning.SetRequirements | core/compliance/match/matcher.go:165-181 | one requirement set for each evidence set, with its trimmed and lowered entries, that needs every type |
| MatcherMeaning.OwnRequirements | core/compliance/match/matcher.go:156-163 | without evidence sets one, the control's own, that needs no type in particular |
| MatcherChoice.Conservation | core/compliance/match/matcher.go:206-286 | candidates = matched + partial + failed = evidence length, invalid-excluded <= failed, and the type sets nest |
| MatcherChoice.EvaluatedReachable | core/compliance/match/matcher.go:183-314 | the facts that hold of every evaluated result, on which the comparator relies |
| MatcherChoice.PreferIsGreater | core/compliance/match/matcher.go:316-359 | on reachable results the cross-multiplied comparator is the lexicographic order of a key of ratios, zero denominators included |
| MatcherChoice.PreferIsStrictWeakOrder | core/compliance/match/matcher.go:316-359 | irreflexive, asymmetric, transitive, with transitive indifference |
| MatcherChoice.SelectedIsFirstMaximum | core/compliance/match/matcher.go:132-145 | the selection is a maximum and beats every candidate before it |
| MatcherChoice.RequirementSetsAscend | core/compliance/match/matcher.go:156-181 | the evidence sets are tried in the order of their trimmed ids |
| MatcherChoice.TiesGoToSmallestId | core/compliance/match/matcher.go:132-145 | no evidence set the selected one is not preferred to has a smaller id |
| MatcherChoice.SelectionUpToTies | core/compliance/match/matcher.go:156-181 | sets with equal ids may be tried in any order: the selected results are tied and have one status |
| MatcherChoice.SelectedHasBestRank | core/compliance/match/matcher.go:132-145 | a control reaches the best status of its evidence sets |
| MatcherChoice.StatusMeaning | core/compliance/match/matcher.go:263-286 | covered iff the set is satisfied by the records; at least partial iff some record matches or partly matches |
| MatcherChoice.CoveredIffSomeSetSatisfied | core/compliance/match/matcher.go:132-145 | a control is covered iff some evidence set is satisfied |
| MatcherChoice.MoreEvidenceKeepsStatus | core/compliance/match/matcher.go:206-286 | without a frequency window more records never lower a set's status |
| MatcherChoice.MoreEvidenceKeepsControl | core/compliance/match/matcher.go:132-145 | nor a control's |
| MatcherWindows.StatusFallsIff | core/compliance/match/matcher.go:206-286 | for any frequency, added records lower a set's status iff it was satisfied and no longer is, and never below partial |
| MatcherWindows.ControlFallsIff | core/compliance/match/matcher.go:132-145 | a control's iff some evidence set was satisfied and none is |
| MatcherWindows.InWindowIff | core/compliance/match/matcher.go:554-571 | for every frequency a record is in the window iff the last record is not a whole window later |
| MatcherWindows.CoverageLastsWindow | core/compliance/match/matcher.go:263-286 | coverage by one record outlasts another, uncounted one exactly as long as that is not a whole window later |
| MatcherWindows.WindowHoldsStatus | core/compliance/match/matcher.go:206-286 | while the window does not move on, added records never lower a status |
| MatcherWindows.WindowBreaksMonotonicity | core/compliance/match/matcher.go:554-571 | the failing family for each frequency: a record a whole window later, even one the set does not ask about, takes the coverage away |
| MatcherChoice.MissingTypesCount | core/compliance/match/matcher.go:364-376 | the remediation list is as long as the comparator's count of missing types |
| Packet.DerivePacketCompleteness | core/governance/types.go:195-265 | states, verdict and reasons of the two loops, terminal states applied last in any map order |
| Packet.EventsFromPacket | core/governance/graph.go:98-125 | one event per item with a kind, with the attribute overrides, in order |
| PacketMeaning.AxisMeans | core/governance/types.go:196-207 | an item belongs to an axis iff its kind is the name of the axis or one of three synonyms |
| PacketMeaning.StateMeans | core/governance/types.go:208-238 | which state texts count as gap, unknown and present, and which items are terminal |
| PacketMeaning.KindMeans | core/governance/graph.go:34-94 | an item becomes an event of a kind iff its kind and state say so, one event kind at a time |
| PacketMeaning.EventMeans | core/governance/graph.go:98-125 | the event carries the item's contract, time and raw state, and its id and digest unless overridden |
| PacketLaws.JoinIsMaximum | core/governance/types.go:198-241 | without terminal items an axis is the maximum of its items, or missing |
| PacketLaws.AxisOrderFree | core/governance/types.go:198-241 | without terminal items the order of evidence does not matter |
| PacketLaws.TerminalOverrides | core/governance/types.go:198-241 | with terminal items the last one decides alone |
| PacketLaws.VerdictMeaning | core/governance/types.go:242-265 | complete iff all seventeen axes are present, gap iff some axis is unknown or gap |
| PacketLaws.OneReasonPerAxis | core/governance/types.go:242-265 | each axis that is not present contributes exactly one reason, and there are no others |
| PacketLaws.GapEvidenceIsGapEvent | core/governance/graph.go:34-94 | an item records a gap iff its event bears one |
| PacketLaws.PacketTimelineComplete | core/governance/graph.go:34-145 | a packet's timeline is complete iff it ends in a terminal status and no item records a gap |
| Identity.EventMap.ApplyIdentityView | core/normalize/identity.go:151-197 | event and relationship after the write, key by key |
| Identity.AppendEntityRef | core/normalize/identity.go:408-423 | the reference is added at the end unless it is blank or already there |
| IdentityMeaning.EndsMean | core/normalize/identity.go:43-139 | actor and downstream identity are the first known of their sources, in order, from the two ends of the chain |
| IdentityMeaning.ChainMeans | core/normalize/identity.go:86-148 | the chain is the event's, else the metadata's, else the relationship's, else runs from actor to downstream |
| IdentityMeaning.PartsMean | core/normalize/identity.go:61-80 | owner, policy digest and approval are the first known of their sources |
| IdentityMeaning.TargetMeans | core/normalize/identity.go:78-126 | target id and kind are the first known of their sources, suggested kinds included |
| IdentityMeaning.DroppedMeans | core/normalize/identity.go:191-197 | after writing, a relationship is dropped iff nothing at all is held in it |
| IdentityMeaning.ChainInEvent | core/normalize/identity.go:171-214 | a chain is written into the event as identities and roles, hop by hop |
| IdentityMeaning.RelationshipMeans | core/normalize/identity.go:151-197 | writing adds references to actor, downstream and target at the end, policy digest and chain where there were none, and copies the rest |
| IdentityFixpoint.Fixpoint | core/normalize/identity.go:43-197 | on every input: deriving after applying gives the same view iff the downstream key is absent or usable or a blank one does no harm, else its downstream identity becomes the end of the written chain; applying again never changes anything |
| IdentityFixpoint.EventStays | core/normalize/identity.go:151-197 | applying one view twice is applying it once, on every event |
| IdentityFixpoint.BlankKeyBreaksFixpoint | core/normalize/identity.go:43-197 | an instance of the other direction: a blank downstream key, the agent id as downstream identity, and a stated chain ending elsewhere |
| Conformance.CompareProjectedControls | core/ingest/actioncontract/conformance.go:113-172 | the verdict for every iteration order of the proposal's map |
| Conformance.UnknownExceptionRefs | core/ingest/actioncontract/conformance.go:352-364 | the unknown references, trimmed, in sorted order |
| Conformance.ContainsException | core/ingest/actioncontract/conformance.go:329-350 | true iff an exception names the field or an alias of it |
| ConformanceMeaning.ClassMeans | core/ingest/actioncontract/conformance.go:113-172 | what each classification means in terms of the values and exceptions given, and when the result is valid |
| ConformanceMeaning.ReasonMeans | core/ingest/actioncontract/conformance.go:113-172 | the reason names a stray exception or the least lacking field; the listed exceptions are the waived fields |
| ConformanceMeaning.TightensIsStricter | core/ingest/actioncontract/conformance.go:232-306 | what it takes of each field for the observed value to be stricter: less depth, a higher credential, more entries, a sooner end |
| ConformanceMeaning.ValidInValues | core/ingest/actioncontract/conformance.go:113-306 | without exceptions valid iff every proposed field is there and equal or stricter |
| ConformanceMeaning.ValidPromises | core/ingest/actioncontract/conformance.go:113-306 | what a valid comparison promises field by field: depth never grows, the credential never moves down, entries are kept, compensation is not dropped, validity never ends later, other fields are equal |
| ConformanceMeaning.ApprovalTightens | core/ingest/actioncontract/conformance.go:275-285 | below a hundred approvals, approval tightens iff it becomes required or asks for more |
| ConformanceMeaning.ManyApprovalsOutweigh | core/ingest/actioncontract/conformance.go:275-285 | from more than a hundred on, dropping the requirement counts as tightening |
| ConformanceMeaning.ExceptedIsExempt | core/ingest/actioncontract/conformance.go:329-350 | an exception counts for a field iff it names it or its alias, in any case |
| ConformanceMeaning.UnknownIsStray | core/ingest/actioncontract/conformance.go:352-370 | the unknown references are the exceptions that name no compared field nor one of two parts of the contract |
| ConformanceMeaning.SplitIsParts | core/ingest/actioncontract/conformance.go:287-306 | a joined list's parts are the stretches between its bars |
| Conformance.TighteningIsOrder | core/ingest/actioncontract/conformance.go:232-306 | on every field tightening is irreflexive and transitive |
| Conformance.ValidMeans | core/ingest/actioncontract/conformance.go:113-172 | valid iff no exception is unknown and every proposed field is equal, tightened or excepted |
| Conformance.IterationOrderIrrelevant | core/ingest/actioncontract/conformance.go:113-172 | classification, validity and reasons do not depend on map iteration; the exceptions do not as a multiset |
| Conformance.WeakenedOrderOpen | core/ingest/actioncontract/conformance.go:113-172 | of a weakened comparison every arrangement of the exceptions is a verdict |
| Conformance.ValidWithoutExceptions | core/ingest/actioncontract/conformance.go:113-172 | without exceptions validity is containment of control values, and exactness is equality on the proposal |
| Conformance.ConformanceIsOrder | core/ingest/actioncontract/conformance.go:113-306 | without exceptions conformance is reflexive, transitive and antisymmetric |
| Drift.Analyze | core/review/privilegedrift/analyzer.go:22-57 | the updated baseline and the sorted gaps of the specified fold |
| Drift.InsertPrivilege | core/review/privilegedrift/analyzer.go:81-90 | growing, shifting the tail in place and overwriting puts the candidate at its sorted position |
| Drift.SearchFinds | core/review/privilegedrift/analyzer.go:76-79 | in a sorted list the binary search finds a privilege iff it is there |
| Drift.Contents | core/review/privilegedrift/analyzer.go:22-57 | every list stays sorted and holds the baseline plus what was observed, nothing else |
| Drift.OneGapEach | core/review/privilegedrift/analyzer.go:22-57 | an observation adds one gap if it is the unapproved first sight of a new pair, and none otherwise |
| Drift.GapsAreEscalations | core/review/privilegedrift/analyzer.go:22-57 | the gaps are exactly those escalations |
| Drift.AnalysisComposes | core/review/privilegedrift/analyzer.go:22-57 | two steps give the baseline and the gap multiset of one step over everything |
| Drift.RepeatIsSilent | core/review/privilegedrift/analyzer.go:22-57 | observing again what was observed changes and reports nothing |
| DriftMeaning.GapsMean | core/review/privilegedrift/analyzer.go:22-57 | one gap for each complete, unapproved first sight of a privilege the baseline does not grant, naming the pair and the record |
| DriftMeaning.GapsCounted | core/review/privilegedrift/analyzer.go:22-57 | and no more gaps than such sights |
| DriftMeaning.BaselineMeans | core/review/privilegedrift/analyzer.go:22-57 | afterwards a pair is granted iff it was before or a complete observation named it |
| DriftMeaning.ReportSorted | core/review/privilegedrift/analyzer.go:46-56 | the report is sorted by principal, privilege and record |

## Left out

- ReceiptBindsContent: does not derive the injectivity of the content digest, because hashing is a supplied function here.
- CacheStaysSound: does not cover keys that are not the record's own, because manual insertion (cmd/axym/record.go:65) and replay (core/replay/replay.go:120) choose keys outside the chain's scan.
- Rollback: does not model a write that reports an error after its file was already replaced, such as a failed directory sync after the rename; a failed write leaves its file unchanged.
- HopBudget: does not model the rounding of float64 sums, which depths of 2^53 and more meet; numbers are reals.
- FallingBudgetsAccepted: does not say which reals are float64 numbers; the same holds of `UnitBoundIsMet`, whose budgets are float64 numbers for instance when u = 2^-52 and n <= 2^52.
- EvaluateRequirementSet: does not model the rationale text, the context and weights copied into each match, and the order of lists that are sets here.
- SelectedIsFirstMaximum: does not model rounded ratios, which the comparator does not read.
- Conformance.UnknownExceptionRefs: does not model lower-casing outside ASCII.
- Several processes on one store, the in-process mutex, and the Wrkr lock file.
- Parsing of JSON, RFC 3339 timestamps and regular expressions; a decoded value or an instant stands for the text.
- The difference between a nil and an empty slice or map, and map sharing between a record and its clone.
- The signing library's chain append, schema validation and record construction, beyond the results the store reacts to.
- ValidateGateContractBinding, which compares a gate with a contract field by field.
- The overwriting of record ids and signatures inside the record while a control record's signature is checked; the signature checks are supplied functions.
- The framework loop of Evaluate, its coverage ratio and the rationale texts.
- How control values are extracted from a proposal or an activation, and the checks of compareProposalActivation that come before their comparison.
- Packet digests and signatures, registers, and ProjectGraph, which copies events into nodes and edges.
- The order in which map iteration or an unstable sort leaves equal elements: one order stands for all, and `SelectionUpToTies`, `MarkMayGo` and `WeakenedOrderOpen` say what the others change.
- Command line, collectors, redaction, bundle staging, reports and grades.
