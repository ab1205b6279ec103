# FleetShift trust and delivery: a verified model

This project models the parts of the FleetShift proofs of concept whose correctness is a matter of whole
runs, and proves what they promise. Every `.dfy` file is one module (check all of them with
`dafny verify dfyconfig.toml`).

* **Trust model v3** (`MerkleLog`, `SparseMap`, `TrustProtocol`, `KeyChain`, `TrustAgentModel`,
  `TrustAgentProofs`, `TrustAgentRuns`, `TrustAgentAnswers`, `TrustAudit`, `TrustAgent`, `TrustMapBuilder`,
  `TrustHonestRuns`). A delivery agent keeps
  one map root, one log checkpoint, a bounded exception set and per-fulfillment generations, and moves them on proofs from a
  manager it does not trust. The class `TrustAgent.Agent` has the source's fields and methods, each proved equal
  to a step function; the step functions carry the invariant and the theorems over every run. `TrustAgentAnswers`
  and `TrustAudit` say what is answered in terms of the log, the audit and the effects so far. `TrustHonestRuns`
  shows honest parties being served, and what the source's own scenario table says of a withheld rotation: the
  agent that was told refuses, and the other acts on its own view.
* **Provenance suites** (`EvidenceLog`, `ResourceManager`, `TargetApplication`, `DeliveryRoute`,
  `EvidenceCatalog`, `Selection`, `Validity`, `DirectKey`, `VerificationSession`, `DeliveryEvaluation`,
  `EvaluationAnswers`, `ProvenanceAgent`, `ProvenanceAnswers`, `TargetRuns`). The manager's tables and retry loop, the two-party protocol between manager and agent as
  interleaved steps with faults, the decision procedures, the session and handlers that evaluate a package, and
  the justification of everything a target acts on, together with the log it retains and its generation fence.
* **Controller runtime** (`WatchStore`, `WatchRuns`, `Projection`). The list/watch store with its journal and
  compaction, and the generation-fenced projection with reconcilers that write from stale caches.
* **Attestation graph** (`AttestationGraph`). The recursive verifier of couriered bundles, cyclic ones included.

## How the source is read

* Digests are terms: `MerkleLog.Hash`, `SparseMap.MapHash` and the digest types of each protocol have one
  constructor per way of computing a digest, so equal digests come from equal preimages. This stands for
  collision resistance and domain separation. Collision errors in the source (two envelopes under one identity)
  therefore cannot arise.
* Roots come from outside and need not be the hash of any tree: soundness lemmas speak of `LeafAt` and `Lookup`,
  which read what a root commits to, whatever it is.
* The Merkle library is modelled by sections 2.1, 2.1.1 and 2.1.2 of RFC 6962.
* A signature is a term over key, purpose and message, and verifies exactly when it was made with that key over
  that message. OIDC verification is a function given to each call; the facts it confirmed are recorded, and
  audits refer to them. CEL evaluation, certificate checks and clocks are deterministic functions or parameters.
* The position of an identity in the sparse map is an arbitrary function of the identity; collisions are allowed.
* A concurrent protocol is a state machine over its atomic steps; a run is any sequence of steps. A cached read
  answers with any version that was ever stored.

## Where code and expectation part

* `TrustProtocol.SuccessorAgreement`: the client copies a recovery policy that the verifier takes to be empty.
* `TrustAgentRuns.StaleAnswer` and `TrustAgentRuns.StaleYetAdvanced`: an update that claims an older start but
  verifies against the retained checkpoint is answered stale although it moves the checkpoint.
* `WatchRuns.OvertakingResurrects` and `WatchRuns.NaiveAgreesExactly`: broadcasts happen outside the store's lock.
* `WatchRuns.HorizonAnswer`, `WatchRuns.HorizonExpires`, `WatchRuns.LatestHorizonWatches` and
  `WatchRuns.HorizonAheadWatches`: the comment on `Compact` promises expiry at the horizon and before it. The
  horizon itself does not expire while it is the latest revision, nor after a compaction into the future.
* `WatchRuns.UncompactedExpires`: a watch can expire although nothing was compacted.
* `Projection.CallTakesEffect` and `Projection.NewerGenerationDropped`: deduplication looks at the delivery id alone.
* `AttestationGraph.BuilderAgrees` and `AttestationGraph.ZeroBaseVerifies`: a signed generation of zero is inferred as one.
* `Validity.LogWindowUnchecked`, `Validity.TimeWindowUnchecked`, `Validity.EstablishedAfterTheLast` and
  `Validity.RetiredBeforeTheFirst`: a window bounded on one side only is never called unsatisfiable, even where
  nothing fits.

## Model

| member | source | states |
|---|---|---|
| MerkleLog.PathExact | poc/trust-model-v3/protocol/types.go:733-766 | an audit path folds to a root if and only if the root commits to that leaf at that position and prescribes exactly that path |
| MerkleLog.InclusionSound | poc/trust-model-v3/protocol/types.go:412-437 | whatever an untrusted root is, an accepted inclusion proof means that the root commits to the leaf at that index |
| MerkleLog.RootsAgree | poc/trust-model-v3/protocol/types.go:585-651 | the two roots that a consistency proof reconstructs commit to the same hash at every position of the smaller tree |
| MerkleLog.AdvanceSound | poc/provenance-suites/protocol/log.go:79-118 | an accepted checkpoint transition, in its empty, equal-size and growing cases, only appends: no position of the old checkpoint means anything else in the new one |
| MerkleLog.AppendSound | poc/trust-model-v3/protocol/types.go:585-651 | one inclusion and one consistency proof together turn the tree of a leaf sequence into the tree of that sequence plus exactly one leaf |
| MerkleLog.TreeHashInjective | poc/trust-model-v3/internal/merklelog/tree.go:221-245 | equal roots over equally many leaves come from equal leaf sequences |
| MerkleLog.ConsistencyComplete | poc/trust-model-v3/internal/merklelog/tree.go:268-285 | the consistency proof a log builds between two of its sizes is accepted (partner of RootsAgree) |
| MerkleLog.AdvanceComplete | poc/provenance-suites/resourcemanager/manager.go:592-616 | any two sizes of one honest log are linked by a transition the verifier accepts, including from empty and to the same size |
| MerkleLog.InclusionComplete | poc/trust-model-v3/internal/merklelog/tree.go:247-266 | for an honest log, an inclusion proof is accepted if and only if it is that log's own path for that leaf at that position |
| SparseMap.MembershipSound | poc/trust-model-v3/internal/sparsemap/tree.go:259-340 | a proof that reconstructs a root shows what that root holds at the key, present or absent, whatever the root is |
| SparseMap.ReplacementFrame | poc/trust-model-v3/internal/sparsemap/tree.go:259-340 | the same siblings with another leaf give a root that holds the same as before at every other key |
| SparseMap.ReplacementRefinesUpdate | poc/trust-model-v3/internal/sparsemap/tree.go:157-207 | on the root of a map, an accepted proof shows that map's value at the key, and replacing the leaf gives the root of the map with one assignment |
| SparseMap.LookupIsGet | poc/trust-model-v3/internal/sparsemap/tree.go:93-123 | descending the tree of a map by a key's bits is looking that key up in the map |
| SparseMap.ExpandCompressed | poc/trust-model-v3/internal/sparsemap/tree.go:131-155 | expanding the canonical compressed proof restores every sibling, empty ones included (round trip) |
| SparseMap.HonestProofAccepted | poc/trust-model-v3/internal/sparsemap/tree.go:305-340 | the compressed proof of a map reconstructs that map's root, for present and absent keys |
| TrustProtocol.SuccessorAgreement | poc/trust-model-v3/protocol/state.go:67-148 | the client's successor state and the verifier's reconstruction from the rotation agree if and only if the recovery policy is empty and the identity is named; otherwise a rotation would be built that no verifier accepts |
| TrustProtocol.VerifyDeliveryLogUpdate | poc/trust-model-v3/protocol/types.go:373-441 | the loop accepts an update exactly when the transition verifies, every disclosed entry is included at its index, and no index is disclosed twice |
| TrustProtocol.LogUpdateSound | poc/trust-model-v3/protocol/types.go:373-441 | after an accepted update the new checkpoint continues the old one and commits to every disclosed record at its index |
| TrustProtocol.MapUpdateSound | poc/trust-model-v3/protocol/types.go:888-946 | an accepted map update changes exactly one identity's head, from the claimed previous head to the new one, and leaves every other identity as it was, even one whose map key collides |
| TrustProtocol.HistoryUpdateSound | poc/trust-model-v3/protocol/types.go:585-651 | an accepted history update extends the history a head commits to by exactly the disclosed event |
| TrustProtocol.HistoryUnique | poc/trust-model-v3/protocol/types.go:656-702 | a head commits to one history only |
| TrustProtocol.MembershipIsHead | poc/trust-model-v3/protocol/types.go:998-1023 | a membership proof names the head that the map root holds for the identity |
| TrustProtocol.EventProofSound | poc/trust-model-v3/protocol/types.go:733-766 | a proven key event is the event of the committed history at its sequence number |
| TrustMapBuilder.BuiltHistoryAccepted | poc/trust-model-v3/protocol/types.go:519-583 | what the history builder produces for an append, the history verifier accepts |
| TrustMapBuilder.BuiltMapUpdateAccepted | poc/trust-model-v3/protocol/types.go:768-826 | what the map holder builds, the verifier accepts, and it lands on the root of the map with that one head replaced (round trip) |
| TrustMapBuilder.AcceptedUpdateIsAssignment | poc/trust-model-v3/protocol/types.go:888-946 | on the root of a map of heads every accepted update, honest or not, acts as one assignment to that map |
| KeyChain.ReplayPrefix | poc/trust-model-v3/deliveryagent/agent.go:237-367 | every prefix of a history that passes the full audit passes it too |
| KeyChain.GenerationAt | poc/trust-model-v3/deliveryagent/agent.go:521-543 | in an audited history state k has generation k |
| KeyChain.StateOnce | poc/trust-model-v3/deliveryagent/agent.go:669-792 | an audited history produces each state digest at most once, so that a delivery names one event |
| KeyChain.MarkersIncrease | poc/trust-model-v3/deliveryagent/agent.go:283-367 | rotation markers of an audited history lie at strictly increasing log positions |
| KeyChain.ShortcutIsReplay | poc/trust-model-v3/deliveryagent/agent.go:396-435 | for any event of an audited history, rebuilding the state from that one event gives the state and digest that replaying the whole history with every signature check gives |
| KeyChain.AuditExact | poc/trust-model-v3/deliveryagent/agent.go:283-367 | the audit passes a history if and only if its first event is an enrollment for this tenant, issuer and client whose key signed an intent naming it and whose token the provider confirmed, and every later event is a rotation that both keys signed from exactly the state before to exactly the state it names, with the next generation and a later marker |
| KeyChain.WindowsDisjoint | poc/trust-model-v3/deliveryagent/agent.go:669-792 | under one history a log index belongs to the validity window of at most one state |
| TrustAgentProofs.UpdateExtendsHistory | poc/trust-model-v3/deliveryagent/agent.go:237-281 | an accepted update extends the identity's committed history by one event and keeps every other identity's history |
| TrustAgentProofs.AcceptedEventReplays | poc/trust-model-v3/deliveryagent/agent.go:283-367 | an event that validation accepts without an exception extends a history that passes the audit to one that passes it |
| TrustAgentProofs.BatchExtendsHistories | poc/trust-model-v3/deliveryagent/agent.go:237-281 | a batch appends to every identity's history exactly the batch's events of that identity, in order |
| TrustAgentProofs.BatchRecords | poc/trust-model-v3/deliveryagent/agent.go:237-281 | after a batch the exceptions are those before and the events of the batch judged exceptional, no others |
| TrustAgentProofs.BatchFailsSomewhere | poc/trust-model-v3/deliveryagent/agent.go:237-281 | a failing batch has an update at which it fails after a part that would have succeeded |
| TrustAgentProofs.ApplyUpdatesKeeps | poc/trust-model-v3/deliveryagent/agent.go:237-281 | a batch keeps the map invariant: every mapped identity has one committed history, audited unless excepted, and exceptions are bounded, distinct and permanent |
| TrustAgentRuns.StepKeeps | poc/trust-model-v3/deliveryagent/agent.go:227-792 | every call, with any untrusted arguments, keeps the agent's invariant, only makes progress, and acts only for identities that are mapped and not excepted |
| TrustAgentRuns.RunKeeps | poc/trust-model-v3/deliveryagent/agent.go:227-792 | every state reachable by any sequence of calls satisfies the invariant |
| TrustAgentRuns.ReachableChainsValid | poc/trust-model-v3/deliveryagent/agent.go:237-367 | in every reachable state each mapped identity without an exception has a chain: a confirmed enrollment at 0 whose key signed its intent, then only rotations, each signed by the key of the state before it and by the new key, generation k at state k, markers strictly increasing |
| TrustAgentRuns.RotationCutoff | poc/trust-model-v3/deliveryagent/agent.go:669-792 | once a map root retiring state s at marker m is accepted, no later call in any run acts on a delivery signed under s at log index m or beyond |
| TrustAgentRuns.WindowDecides | poc/trust-model-v3/deliveryagent/agent.go:669-792 | given proofs that open the accepted head and disclose the markers at both ends, the signing-state checks pass if and only if the index lies in the state's window |
| TrustAgentRuns.EveryEffectJustified | poc/trust-model-v3/deliveryagent/agent.go:669-792 | everything ever acted on is addressed to this tenant and target with attested content, is in the log at its index, is signed with the key of a state whose history passes the audit and is committed, and lies strictly between that state's markers |
| TrustAgentRuns.OneIndexOnePackage | poc/trust-model-v3/deliveryagent/agent.go:553-572 | over a whole run one log index never carries two packages |
| TrustAgentRuns.GenerationsActOnce | poc/trust-model-v3/deliveryagent/agent.go:769-791 | effects on one fulfillment have strictly increasing generations, so each generation is acted on for at most one package, and the live state is the fold of the effects |
| TrustAgentRuns.LogNeverForks | poc/trust-model-v3/deliveryagent/agent.go:553-572 | the retained checkpoint only moves to an append-only continuation |
| TrustAgentRuns.ExceptionsContain | poc/trust-model-v3/deliveryagent/agent.go:237-281 | exceptions never shrink, never exceed capacity and hold at most one entry per identity, and nothing an excepted identity signed is acted on afterwards |
| TrustAgentRuns.BatchAllOrNothing | poc/trust-model-v3/deliveryagent/agent.go:237-281 | a batch commits whole, every history growing by exactly its events in order and the exceptions by exactly the events judged exceptional, or changes nothing and then reports the hard error of its first failing update |
| TrustAgentRuns.StaleAnswer | poc/trust-model-v3/deliveryagent/agent.go:574-624 | a call is answered stale exactly when its update starts behind the retained checkpoint and leads to that checkpoint or to a larger size; the answer reports the checkpoint retained on arrival, which is still retained afterwards if and only if the update did not extend the log all the same |
| TrustAgentRuns.StaleYetAdvanced | poc/trust-model-v3/deliveryagent/agent.go:574-624 | for every honest log and any three of its sizes there is a call that is answered stale with the middle one and leaves the largest retained |
| TrustAgentAnswers.ReceiveAnswers | poc/trust-model-v3/deliveryagent/agent.go:769-791 | a verified delivery is acted on if and only if no effect on its fulfillment has its generation or a later one; otherwise nothing changes, and it is acknowledged if and only if the latest effect on the fulfillment is this very delivery, and refused for its generation if not |
| TrustAgentAnswers.RefusalAnswers | poc/trust-model-v3/deliveryagent/agent.go:669-768 | with proofs that open the accepted head and disclose the markers, what keeps a delivery from the generation fence decides its error: not shown in the log, not a complete delivery for this target, outside the window of its signing state, or not signed with that state's key; and nothing else keeps it |
| TrustAgentAnswers.DeliverAnswers | poc/trust-model-v3/deliveryagent/agent.go:574-615 | a push that is not stale: refused with nothing changed where the log update is not accepted, refused with only the log moved where the batch fails, and otherwise what the delivery is answered, except for a lost acknowledgement |
| TrustAgentAnswers.HardErrorAnswers | poc/trust-model-v3/deliveryagent/agent.go:237-281 | what stops a batch: a root it does not start from or a failing map proof is a fork, a failing history proof an error of the event's kind, a new exception without room a capacity error; an excepted identity's update is taken as it comes |
| TrustAgentAnswers.LostAcknowledgementRetries | poc/trust-model-v3/deliveryagent/agent.go:574-615 | a delivery acted on whose acknowledgement was lost, sent again from the retained checkpoint, is acknowledged and adds no effect |
| TrustAgentAnswers.StaleRetryRecovers | poc/trust-model-v3/deliveryagent/agent.go:617-624 | over an honest log, an update from an older size to exactly the retained one is answered stale with the retained checkpoint, and the delivery sent again from there is acknowledged |
| TrustAudit.VerdictIsAudit | poc/trust-model-v3/deliveryagent/agent.go:283-367 | for an update that both proof layers accept, of an identity without an exception: validation accepts if and only if the update carries the evidence its kind needs and the history with the new event passes the audit; with that evidence it never rejects, and records an exception with the error of the event's kind otherwise |
| TrustAudit.BatchComesTo | poc/trust-model-v3/deliveryagent/agent.go:237-281 | after any part of a batch of such updates the root is the part's last, and exceptions and remembered error are those of the first event of each identity that does not pass the audit |
| TrustAudit.BadEventsAreIsolated | poc/trust-model-v3/deliveryagent/agent.go:223-281 | a batch of such updates within capacity commits whole: the new exceptions are exactly the first event of each identity that does not pass the audit, every other identity's events take effect, and the answer is the first such event's error, or none |
| TrustAgentRuns.LastStateUnbounded | poc/trust-model-v3/deliveryagent/agent.go:719-760 | for the last state of the accepted head the checks pass exactly for the indexes after its own marker, whatever else the log holds |
| TrustHonestRuns.HonestEnrollmentAccepted | poc/trust-model-v3/deliveryagent/agent.go:283-310 | an enrollment that the identity provider confirms enters the map of all heads and is judged valid |
| TrustHonestRuns.HonestRotationAccepted | poc/trust-model-v3/deliveryagent/agent.go:311-367 | a rotation that the current key of an audited history authorizes, with predecessor and marker, enters the map and is judged valid, whether the log already covers the marker or not |
| TrustHonestRuns.WithheldRotationActs | poc/trust-model-v3/README.md:335-335 | an agent from which a genuine rotation is withheld acts on a delivery signed with the retired key, although the rotation's marker stands before it in the agent's log |
| TrustHonestRuns.ToldAgentRefuses | poc/trust-model-v3/README.md:335-335 | an agent that accepted the rotation answers the same delivery with a signing-state error and no effect, whatever identity proof comes with it |
| TrustHonestRuns.StoryExists | poc/trust-model-v3/README.md:335-335 | for every tenant and target there is such a user, rotation and delivery, so the theorems over runs speak of runs with effects |
| TrustAgent.NewAgent | poc/trust-model-v3/deliveryagent/agent.go:111-148 | settings are refused exactly when tenant, target or trust manifest is missing or the capacity negative; no capacity means 64 |
| TrustAgent.Agent.constructor | poc/trust-model-v3/deliveryagent/agent.go:111-148 | a new agent starts at the empty map, the empty log and no exceptions |
| TrustAgent.Agent.ApplyMapUpdates | poc/trust-model-v3/deliveryagent/agent.go:237-281 | the loop over copies commits root and exceptions exactly as the batch function says, or nothing on a hard error; TrustAudit and TrustAgentAnswers say what that is by the audit |
| TrustAgent.Agent.SyncMap | poc/trust-model-v3/deliveryagent/agent.go:227-235 | new state and error are those of the model's step |
| TrustAgent.Agent.AdvanceLog | poc/trust-model-v3/deliveryagent/agent.go:545-572 | new checkpoint, error and the table of disclosed records are those of the model's step |
| TrustAgent.Agent.ReceiveIncludedDelivery | poc/trust-model-v3/deliveryagent/agent.go:669-792 | new fields and error are those of the model's step, which TrustAgentAnswers states by log, history and effects |
| TrustAgent.Agent.ReceiveDelivery | poc/trust-model-v3/deliveryagent/agent.go:655-667 | new fields and error are those of the model's step |
| TrustAgent.Agent.Deliver | poc/trust-model-v3/deliveryagent/agent.go:574-615 | new fields and error, with unavailable, stale and lost-acknowledgement outcomes, are those of the model's step |
| TrustAgent.BatchFails | poc/trust-model-v3/deliveryagent/agent.go:237-281 | a failing update makes the whole batch fail with the same error, which is why the loop may return early |
| EvidenceLog.PrepareContinues | poc/provenance-suites/temporal/temporal.go:74-121 | whatever a package carries, the checkpoint prepared from the retained one continues it, is the one the package leads to, and holds the root's identity at its index where the root comes with an inclusion |
| EvidenceLog.PrepareRefuses | poc/provenance-suites/temporal/temporal.go:74-121 | an inclusion without an update is refused as missing, an update from a smaller checkpoint as stale with the retained one, and any other update that does not start there as invalid |
| EvidenceLog.IdentityMemoLog.VerifyOccurrence | poc/provenance-suites/temporal/temporal.go:130-156 | a success names the one identity the checkpoint holds at the answered index; the answer for an identity depends only on its first inclusion |
| EvidenceLog.ObserveAllKeeps | poc/provenance-suites/deliveryagent/verifier.go:113-152 | over any packages whatever the retained checkpoint only moves to an extension and every verified binding stays what it commits to |
| EvidenceLog.OneIndexOneIdentity | poc/provenance-suites/deliveryagent/verifier.go:113-152 | over a whole run against arbitrary packages one log index never binds two evidence identities |
| ResourceManager.PrependRoot | poc/provenance-suites/resourcemanager/manager.go:834-856 | the root comes first and the supporting items follow in order, every item exactly once at its first occurrence |
| ResourceManager.OccurrencesInOrder | poc/provenance-suites/resourcemanager/manager.go:834-856 | items keep the order of their first occurrences |
| ResourceManager.RegisteredSound | poc/provenance-suites/resourcemanager/manager.go:402-439 | an acceptance appends, each once, exactly the items that are required and not logged yet |
| ResourceManager.RegisteredInOrder | poc/provenance-suites/resourcemanager/manager.go:402-439 | what an acceptance appends comes in package order |
| ResourceManager.NextPositionKeepsBijection | poc/provenance-suites/resourcemanager/manager.go:348-366 | giving a new identity the next position keeps the log-index table a bijection |
| ResourceManager.Manager.RegisterAgent | poc/provenance-suites/resourcemanager/manager.go:195-214 | a new route starts at the empty checkpoint; a known or empty target is refused |
| ResourceManager.Manager.PlanEvidence | poc/provenance-suites/resourcemanager/manager.go:402-439 | planning fails exactly when a policy lookup is needed and fails, and otherwise finds the items to append, in package order |
| ResourceManager.Manager.CommitAcceptance | poc/provenance-suites/resourcemanager/manager.go:334-400 | an acceptance keeps the table a bijection between logged identities and 0..size-1, changes no existing position, stores every item, commits a prepared enrollment without changing any principal's key, adds one delivery and one pending dispatch per target, and on failure changes nothing |
| ResourceManager.Manager.AppendToLog | poc/provenance-suites/resourcemanager/manager.go:348-366 | the log grows by exactly the given identities, and cached checkpoints stay on it |
| ResourceManager.Manager.DispatchTargets | poc/provenance-suites/resourcemanager/manager.go:441-455 | the named target, or every registered target once, in sorted order |
| ResourceManager.Manager.Enqueue | poc/provenance-suites/resourcemanager/manager.go:384-398 | one new pending dispatch per target under a fresh id; existing dispatches are untouched |
| ResourceManager.Manager.PushToRoute | poc/provenance-suites/resourcemanager/manager.go:491-546 | against any agent, while the log does not grow, the retry loop ends after at most one attempt per position the route lacks plus one; the cached checkpoint never moves back or off the log and is the last one a stale answer named; it succeeds exactly on an acknowledgement, and otherwise names refusal, no progress or a checkpoint off the log |
| ResourceManager.Manager.PushDispatch | poc/provenance-suites/resourcemanager/manager.go:467-489 | an acknowledged dispatch is never pushed again or un-acknowledged, and only an acknowledgement acknowledges |
| TargetApplication.MemoryApplication.Precheck | poc/provenance-suites/deliveryagent/application.go:84-91 | reports completed for the fenced generation, stale for an older one and new for a later one |
| TargetApplication.MemoryApplication.Accept | poc/provenance-suites/deliveryagent/application.go:93-113 | fences again and then changes fence and live action together; it is refused exactly for an older generation |
| TargetApplication.LatestIsHighest | poc/provenance-suites/deliveryagent/application.go:117-126 | the latest effect on a resource has its highest generation |
| TargetApplication.AdmitKeeps | poc/provenance-suites/deliveryagent/application.go:93-126 | an admitted action keeps effects strictly increasing per resource and the state a function of the effects; any other leaves the state alone |
| TargetApplication.FenceAnswers | poc/provenance-suites/deliveryagent/application.go:115-126 | by the effects alone: new if and only if no effect on the resource has this generation or a later one, completed if and only if the latest one has exactly this one, an error if and only if one has a later one |
| DeliveryRoute.AssembledVerifies | poc/provenance-suites/resourcemanager/manager.go:573-635 | every item an honest manager assembles verifies under the checkpoint of the package it is in |
| DeliveryRoute.PrepareHonest | poc/provenance-suites/temporal/temporal.go:74-121 | an honest agent answers an honest package stale exactly when the route lags behind it, and otherwise moves to the package's checkpoint; never a fork |
| DeliveryRoute.StepKeeps | poc/provenance-suites/resourcemanager/manager.go:491-546 | every step of manager, agent or environment keeps the route invariant |
| DeliveryRoute.RouteStaysOrdered | poc/provenance-suites/resourcemanager/manager.go:491-546 | after any interleaving of acceptances, pushes, transport failures, lost acknowledgements and rejections, route, agent and log are prefixes in that order, no honest package was called a fork, and no push is past its second attempt |
| DeliveryRoute.RunGrows | poc/provenance-suites/deliveryagent/verifier.go:113-152 | log, cached checkpoint, retained checkpoint and effects only grow |
| DeliveryRoute.PushSettles | poc/provenance-suites/resourcemanager/manager.go:491-546 | whatever was lost before, a push that meets no fault and no rejection settles in one attempt, or in two when the route lags, with its work done once and, where the package carries a log update, route and agent at the end of the log |
| DeliveryRoute.EvaluateAnswers | poc/provenance-suites/deliveryagent/agent.go:134-187 | new work is done and acknowledged when its premises hold, the work of the latest effect is acknowledged with nothing done, and overtaken work is refused |
| DeliveryRoute.LostAcknowledgementSettles | poc/provenance-suites/resourcemanager/manager.go:491-546 | after any run, new work whose acknowledgement is lost is done, and the same push made again settles with the work done once and route and agent in agreement |
| DeliveryRoute.EffectsInOrder | poc/provenance-suites/deliveryagent/agent.go:134-187 | over any run with retries and lost acknowledgements, effects on one resource have strictly increasing generations and determine fence and live state |
| DeliveryRoute.RemovedReturnsLater | poc/provenance-suites/deliveryagent/application.go:93-113 | a removed resource is live again only through a greater generation |
| EvidenceCatalog.ScanSplits | poc/provenance-suites/deliveryagent/catalog.go:295-345 | a plain scan looks past a faultless beginning exactly when that beginning has no match |
| EvidenceCatalog.Catalog.Advance | poc/provenance-suites/deliveryagent/catalog.go:302-342 | moving the cursor keeps the index equal to a plain scan of the items before it: the first claim of a type wins |
| EvidenceCatalog.Catalog.SupportingRelation | poc/provenance-suites/deliveryagent/catalog.go:295-345 | after any earlier requests the lazy index answers what a stateless first-match scan up to the first lookup fault answers |
| EvidenceCatalog.ParsedOnce | poc/provenance-suites/deliveryagent/catalog.go:291-345 | no item's hints are parsed twice over all requests |
| Selection.FindAuthority | poc/provenance-suites/protocol/trust.go:124-141 | found exactly when one registry entry has the key and no other does |
| Selection.FindProfile | poc/provenance-suites/protocol/trust.go:86-108 | resolved exactly when the digest is that of one configured profile and no other |
| Selection.ResolveProfiles | poc/provenance-suites/protocol/trust.go:157-175 | succeeds exactly when the references are distinct and all resolve, in order |
| Selection.MatchPolicy | poc/provenance-suites/protocol/selection.go:333-340 | the first policy that matches, if any does |
| Selection.Reevaluate | poc/provenance-suites/protocol/selection.go:353-401 | accepts exactly when the authenticated predicate, partition, principal and both digests confirm the hints and select the same policy entry again |
| Selection.SelectAndVerify | poc/provenance-suites/protocol/selection.go:37-96 | succeeds exactly when the item's types, installed verifier and hints are usable and a selection exists, and returns it |
| Selection.SelectionUnique | poc/provenance-suites/protocol/selection.go:37-96 | configuration, hints and attempts leave room for at most one selection |
| Selection.SelectedByAuthenticated | poc/provenance-suites/protocol/selection.go:353-401 | the returned policy is the first one, in the only authority of the authenticated principal, for the authenticated predicate and partition, and the profile is bound by both digests |
| VerificationSession.Session.VerifyNode | poc/provenance-suites/deliveryagent/session.go:115-149 | answers from the memo, refuses unknown items, and memoizes exactly the successful verifications |
| VerificationSession.Session.Enter | poc/provenance-suites/deliveryagent/session.go:77-84 | refuses an active node and a full stack, and otherwise pushes the node |
| VerificationSession.Session.Leave | poc/provenance-suites/deliveryagent/session.go:97-109 | removes the last occurrence of the node from the stack |
| VerificationSession.Session.RecordDependency | poc/provenance-suites/deliveryagent/session.go:162-184 | refuses unverified endpoints, a node depending on itself and too many edges, and otherwise records the edge once with the child's contribution |
| VerificationSession.Session.AddBasisContribution | poc/provenance-suites/deliveryagent/session.go:195-208 | adds a node's identity and validity basis once |
| VerificationSession.Session.SelectedBasis | poc/provenance-suites/deliveryagent/session.go:213-215 | the sorted sequence of the accumulated basis |
| VerificationSession.VerifyNodeKeeps | poc/provenance-suites/deliveryagent/session.go:115-149 | verification keeps the session invariant: finished memo entries, a stack without repetition, counted edges between different verified nodes, and a basis that is exactly what the contributors bring |
| VerificationSession.AddContributionKeeps | poc/provenance-suites/deliveryagent/session.go:195-208 | a contribution keeps the basis the union of each contributor's identity and validity basis |
| VerificationSession.RecordKeeps | poc/provenance-suites/deliveryagent/session.go:162-184 | recording a dependency keeps the session invariant and touches neither memo nor stack |
| VerificationSession.RecordChooses | poc/provenance-suites/deliveryagent/session.go:162-184 | contributors other than the root are exactly the children of recorded edges |
| VerificationSession.LeaveKeeps | poc/provenance-suites/deliveryagent/session.go:72-109 | leaving undoes entering, whatever was memoized and recorded in between |
| DeliveryEvaluation.NewEvidenceCatalog | poc/provenance-suites/deliveryagent/catalog.go:113-153 | refused exactly when two items have one identity; otherwise every item is under its own |
| DeliveryEvaluation.HandleDeployment | poc/provenance-suites/deliveryagent/predicates.go:12-28 | session and result, on every failing check in source order, are those of the evaluation function |
| DeliveryEvaluation.VerifyFulfillmentRelation | poc/provenance-suites/deliveryagent/predicates.go:86-127 | session and result are those of verifying the first supporting relation, found through the lazy index, while it is active |
| DeliveryEvaluation.CheckRelation | poc/provenance-suites/deliveryagent/predicates.go:99-121 | the checks on the relation in source order, with the dependency recorded only once they hold |
| DeliveryEvaluation.HandleManagedResource | poc/provenance-suites/deliveryagent/predicates.go:30-52 | session and result are those of the evaluation function |
| DeliveryEvaluation.VerifyPackage | poc/provenance-suites/deliveryagent/verifier.go:135-193 | from a new session, root verification and dispatch by predicate type end in the session and outcome of the evaluation function |
| DeliveryEvaluation.ActionAccounts | poc/provenance-suites/deliveryagent/session.go:72-215 | after an authorized action the stack is empty, edges go from the root to other verified items, the contributors are exactly the root and the recorded children, and the basis is the sorted union of what they bring |
| DeliveryEvaluation.ActionIsAsserted | poc/provenance-suites/deliveryagent/predicates.go:12-84 | an authorized action carries the scope, manifests and principal of the verified root, in this agent's tenant and target |
| EvaluationAnswers.WorkAnswers | poc/provenance-suites/deliveryagent/predicates.go:12-84 | for every verified root that asks for work and whatever the application says: incomplete, foreign and other tenants' scopes are refused, each with its error; in scope the package is complete if and only if the application says so, fails with the application's error, and is authorized if and only if the work is open and its premises hold |
| EvaluationAnswers.RefusalAnswers | poc/provenance-suites/deliveryagent/predicates.go:86-127 | open work without its premises is refused by the first that fails: a media type of a deployment's manifest, or for a managed resource provider, claim, another verified item, predicate, provider tenant, content and resource type of the relation |
| EvaluationAnswers.ActionContent | poc/provenance-suites/deliveryagent/predicates.go:12-52 | an authorized action has the root's identity, signer, predicate and scope, and the deployment's own manifests or the spec under the relation's media type |
| EvaluationAnswers.OtherAnswers | poc/provenance-suites/deliveryagent/verifier.go:154-193 | unknown, unverified and undecodable roots fail each in its way, enrollments go to their profile, and relations, trust updates and anything else are never acted on |
| EvidenceCatalog.ScanFindsFirst | poc/provenance-suites/deliveryagent/catalog.go:295-345 | what a scan finds is the first item that claims the type, with no lookup fault before it |
| EvidenceCatalog.ScanIsExact | poc/provenance-suites/deliveryagent/catalog.go:295-345 | the first claim of a type, with no lookup fault before it, is what a scan finds; nothing is found if and only if no item claims the type or faults |
| DirectKey.Target.ApplyEnrollment | poc/provenance-suites/directkey/target.go:282-304 | accepted exactly for an enrollment by the authenticated principal that has no other key; the first binding of a principal wins and none ever changes |
| ProvenanceAgent.VerifiedIsAuthentic | poc/provenance-suites/directkey/target.go:217-267 | a successful selection means an authentic signature under the bound key, or proof of possession for an enrollment, under a policy that admits it, with every temporal constraint holding |
| ProvenanceAgent.BringsIsContribution | poc/provenance-suites/deliveryagent/session.go:195-208 | what an item brings to the session's basis is its identity and what its own selection's validity rests on |
| ProvenanceAgent.ActionJustified | poc/provenance-suites/deliveryagent/predicates.go:12-127 | whatever the handlers authorize under proven bindings is justified |
| ProvenanceAgent.StepKeeps | poc/provenance-suites/deliveryagent/verifier.go:154-193 | every delivery keeps all past justifications and bindings |
| ProvenanceAgent.EveryActionJustified | poc/provenance-suites/deliveryagent/predicates.go:12-127 | everything ever acted on matches the provisioned tenant and target, is signed with the one key its principal enrolled first in proven possession, for a managed resource rests on the first supporting relation for its resource type, signed so by the provider tenant, and has as basis the sorted union of those statements' identities and validity bases |
| ProvenanceAnswers.WorkYields | poc/provenance-suites/deliveryagent/verifier.go:113-193 | for every package whose root is verified and asks for work: it ends as completed if and only if it is in scope and the application says so, and in an action if and only if it is in scope, the work is open, and a deployment's manifests are typed or the first item claiming a managed resource's type is a verified relation of the provider |
| ProvenanceAnswers.EnrollmentYields | poc/provenance-suites/deliveryagent/verifier.go:176-192 | a verified enrollment is handed to its profile |
| ProvenanceAnswers.SomeRunActs | poc/provenance-suites/deliveryagent/agent.go:134-187 | whatever application leaves the work open, there is a run in which one user enrolls a key and deploys with it |
| TargetRuns.ReceiveKeeps | poc/provenance-suites/deliveryagent/verifier.go:113-152 | one package keeps the whole target's invariant, and its retained log only grows |
| TargetRuns.TargetActsJustified | poc/provenance-suites/deliveryagent/agent.go:134-187 | over any run of a whole target everything acted on is justified, whatever its policies require to be logged is in the log retained now at the position its validity was judged by, and effects on one resource have strictly increasing generations that determine fence and live state |
| TargetRuns.ActsOnOpenWork | poc/provenance-suites/deliveryagent/agent.go:134-187 | over any run, with other packages accepted between precheck and acceptance, a step acts only on a generation that the application had completed neither at its precheck nor at its acceptance, and that is higher than every earlier effect on the resource |
| TargetRuns.RetryCompletes | poc/provenance-suites/deliveryagent/application.go:84-126 | over any run, a package in scope prechecked against the current application ends as completed if and only if the latest effect on its resource has its generation, cannot act where that one has a later one, and is authorized exactly when supported otherwise |
| TargetRuns.PrecheckDecides | poc/provenance-suites/deliveryagent/predicates.go:54-84 | what a package in scope ends in follows from the effects of the application it was prechecked against |
| TargetRuns.DoneStaysDone | poc/provenance-suites/deliveryagent/application.go:93-126 | what is open when an action would be accepted was open when its precheck ran |
| TargetRuns.OnePositionOneStatement | poc/provenance-suites/protocol/selection.go:233-266 | two actions of a run whose statements were judged at one log position rest on one envelope |
| TargetRuns.SomeTargetRunActs | poc/provenance-suites/deliveryagent/agent.go:134-187 | such runs with an action exist |
| ProvenanceAgent.BindingsNeverChange | poc/provenance-suites/directkey/target.go:269-304 | over any run a principal keeps the key it enrolled first and no action is forgotten |
| Validity.ValidateConstraints | poc/provenance-suites/protocol/validity.go:93-105 | accepts exactly the constraints that have a coordinate and no inverted time bound |
| Validity.CollectLogDomain | poc/provenance-suites/protocol/validity.go:107-126 | succeeds exactly when all log positions share a domain |
| Validity.PickLogBound | poc/provenance-suites/protocol/validity.go:137-159 | the picked bound is met by an index exactly when every log bound of the side is |
| Validity.PickTimeBound | poc/provenance-suites/protocol/validity.go:161-183 | the picked bound is met by an observation exactly when every time bound of the side is |
| Validity.LogWindowSatisfiable | poc/provenance-suites/protocol/validity.go:207-223 | true exactly when some 64-bit index meets both bounds, at the edges of the range too |
| Validity.TimeWindowSatisfiable | poc/provenance-suites/protocol/validity.go:225-243 | true exactly when some representable instant meets both bounds |
| Validity.UnionBasis | poc/provenance-suites/protocol/validity.go:245-264 | the strictly increasing sequence of exactly the non-empty digests of all constraints |
| Validity.NormalizeValidityWindow | poc/provenance-suites/protocol/validity.go:65-91 | succeeds exactly on well-formed, comparable constraints that are not both-sided and unsatisfiable, with a window that means all of them |
| Validity.LogWindowUnchecked | poc/provenance-suites/protocol/validity.go:194-223 | of normalizable constraints no index fits if and only if one side alone bounds the log and excludes its end of the range |
| Validity.TimeWindowUnchecked | poc/provenance-suites/protocol/validity.go:194-243 | the same for representable instants |
| Validity.EstablishedAfterTheLast | poc/provenance-suites/protocol/validity.go:194-205 | established after the largest index alone is accepted, and nothing meets it |
| Validity.RetiredBeforeTheFirst | poc/provenance-suites/protocol/validity.go:194-205 | retired before index zero alone is accepted, and nothing meets it |
| Validity.OutsideOfTime | poc/provenance-suites/protocol/validity.go:194-205 | the same for time: established after the last instant or retired before the first is accepted, and nothing meets it |
| Validity.CheckTimeValidity | poc/provenance-suites/protocol/validity.go:302-328 | accepts exactly when all observations are proper intervals and one of them meets both time bounds |
| Validity.Decide | poc/provenance-suites/protocol/selection.go:135-142 | normalizing and then checking accepts a subject exactly when every single constraint holds of it, read without any window |
| Validity.OrderIrrelevant | poc/provenance-suites/protocol/validity.go:58-91 | neither decision nor basis depends on the order or repetition of constraints |
| WatchStore.Store.Create | poc/fleetshift-controller-runtime/store/store.go:197-232 | fails exactly when the key exists, and otherwise stores the caller's object at the next revision, with its uid, creation time and generation or fresh ones |
| WatchStore.Store.Update | poc/fleetshift-controller-runtime/store/store.go:236-271 | not found exactly for a missing object and in conflict exactly for a set version that differs; otherwise stores the caller's finalizers, deletion mark and body at the next revision, with the old uid and creation time and the caller's generation unless that is zero |
| WatchStore.Store.Delete | poc/fleetshift-controller-runtime/store/store.go:275-320 | not found exactly for a missing object; marks one with finalizers once, removes one without, and does nothing to a marked one |
| WatchStore.Store.List | poc/fleetshift-controller-runtime/store/store.go:141-153 | exactly the objects of the kind in the namespace, or all of them, and the current revision |
| WatchStore.Store.WatchMeta | poc/fleetshift-controller-runtime/store/store.go:324-377 | expired, future, or exactly the journal entries after the version |
| WatchStore.Store.Compact | poc/fleetshift-controller-runtime/store/store.go:382-404 | keeps exactly the later entries and only raises the horizon |
| WatchStore.Filter | poc/fleetshift-controller-runtime/store/store.go:397-403 | one pass keeps exactly the entries after a version |
| WatchStore.LastEventDecides | poc/fleetshift-controller-runtime/store/store.go:197-320 | after any sequence of events each object is as its own last event left it |
| WatchStore.ReplayTail | poc/fleetshift-controller-runtime/store/store.go:364-372 | applying the tail of a history again changes nothing |
| WatchRuns.JournalSuffices | poc/fleetshift-controller-runtime/store/store.go:344-372 | from a version at or above the horizon the journal holds everything committed since |
| WatchRuns.StepKeeps | poc/fleetshift-controller-runtime/store/store.go:197-404 | every write, compaction, broadcast, list and watch keeps the store and client invariant |
| WatchRuns.ListThenWatch | poc/fleetshift-controller-runtime/store/store.go:324-377 | over any run, a watch from a listed version starts exactly when the version is at or above the horizon and is current or still covered by the journal, with the entries committed since, which turn the listed objects into the current ones; otherwise it has expired |
| WatchRuns.WatchAnswer | poc/fleetshift-controller-runtime/store/store.go:324-377 | over any run and for every version: future, or continuous with exactly the entries committed since, or expired |
| WatchRuns.UncompactedExpires | poc/fleetshift-controller-runtime/store/store.go:349-362 | listing an empty store, one write, and a watch from the listed version expires with nothing compacted |
| WatchRuns.NoEventLost | poc/fleetshift-controller-runtime/store/store.go:461-474 | with broadcasts outside the lock in any order, every event after the listed version was received or is still to be broadcast, and nothing is received that was not committed |
| WatchRuns.NewestWinsAgrees | poc/fleetshift-controller-runtime/store/store.go:461-474 | with any duplicates and order, keeping the newest version of each object agrees with the store as soon as no later broadcast about it is pending |
| WatchRuns.InOrderAgrees | poc/fleetshift-controller-runtime/store/store.go:461-474 | with broadcasts in commit order, applying events as they come ends at the current objects |
| WatchRuns.NaiveAgreesExactly | poc/fleetshift-controller-runtime/store/store.go:468-474 | once nothing is pending, applying events as they come is right if and only if no object's last received event was overtaken by a newer one, deletions aside |
| WatchRuns.OvertakingResurrects | poc/fleetshift-controller-runtime/store/store.go:197-232 | a concrete run in which a late broadcast of a creation leaves a client with a deleted object |
| WatchRuns.UpdateComparesAndSwaps | poc/fleetshift-controller-runtime/store/store.go:236-271 | an update carrying the version its writer read succeeds only while that very object is still stored, deletion and re-creation included |
| WatchRuns.WriteThenList | poc/fleetshift-controller-runtime/store/store.go:141-320 | after any run, a create, update or delete commits exactly the event its caller asked for, and a list at once returns what was stored with that object put in or taken out and all others as they were; one that asks for nothing changes nothing |
| WatchRuns.StepKeepsIdentity | poc/fleetshift-controller-runtime/store/store.go:256-309 | no step changes the uid or creation time of an object or removes one that has finalizers |
| WatchRuns.HorizonAnswer | poc/fleetshift-controller-runtime/store/store.go:340-404 | over any run a watch from the horizon or before it succeeds if and only if it is from the horizon itself and that is the latest revision or still covered by the journal |
| WatchRuns.HorizonExpires | poc/fleetshift-controller-runtime/store/store.go:379-404 | where no compaction ran ahead of the revision, such a watch succeeds if and only if the horizon is the latest revision |
| WatchRuns.LatestHorizonWatches | poc/fleetshift-controller-runtime/store/store.go:379-404 | a run in which the horizon, being the latest revision, does not expire |
| WatchRuns.HorizonAheadWatches | poc/fleetshift-controller-runtime/store/store.go:379-404 | a run in which the horizon does not expire though more was written, after a compaction into the future |
| WatchRuns.RelistRecovers | poc/fleetshift-controller-runtime/store/store.go:340-362 | listing and watching at once works in every reachable state if and only if the store was not compacted into the future |
| Projection.GenerationFence.AcceptGeneration | poc/fleetshift-controller-runtime/provider/provider.go:284-292 | accepts exactly generations not older than the highest accepted, and never lowers a fence |
| Projection.StatusWriteKeepsSpec | poc/fleetshift-controller-runtime/controllers/reconciler.go:42-79 | a status write made from the stored version carries the stored spec |
| Projection.StepKeeps | poc/fleetshift-controller-runtime/provider/provider.go:204-268 | every step of any call or reconciler keeps the projection invariant and lowers no generation |
| Projection.StoredIsFenced | poc/fleetshift-controller-runtime/provider/provider.go:204-292 | under any interleaving a stored generation never exceeds its fence, and a non-empty phase always speaks about the stored generation |
| Projection.GenerationsNeverDecrease | poc/fleetshift-controller-runtime/provider/provider.go:204-292 | under any interleaving no stored delivery disappears and no stored generation or fence goes down |
| Projection.ReconcilerKeepsSpecs | poc/fleetshift-controller-runtime/controllers/reconciler.go:42-79 | whatever its cache held, a reconciler's two writes leave every stored spec alone |
| Projection.UndisturbedCall | poc/fleetshift-controller-runtime/provider/provider.go:204-268 | a call nothing disturbs stores exactly its spec with an empty status if its generation passes the fence, and otherwise nothing |
| Projection.CallTakesEffect | poc/fleetshift-controller-runtime/provider/provider.go:204-268 | in every reachable state a call stores its spec under a new revision if and only if no call for its delivery id is in flight and its generation passes the fence; otherwise store and fence are unchanged, and nothing at all changes where the id is in flight |
| Projection.UndisturbedReconcile | poc/fleetshift-controller-runtime/controllers/reconciler.go:34-84 | in every reachable state and from any cached copy, an undisturbed reconcile leaves the store alone if the copy is settled or outdated, and otherwise settles the stored delivery in two writes with its spec unchanged: as an authentication failure if and only if its token is empty, as delivered otherwise |
| Projection.NewerGenerationDropped | poc/fleetshift-controller-runtime/provider/provider.go:205-208 | a call with a newer generation that meets an older one in flight returns without error and leaves store and fence behind it |
| AttestationGraph.VisitingLeavesLess | poc/attestation/sigstore_tuf_bundle/verify.py:506-510 | each visit lowers the number of references left, the measure by which verification of any bundle ends |
| AttestationGraph.VerifiedDescends | poc/attestation/sigstore_tuf_bundle/verify.py:454-597 | a verified input is reached from one signed input in date by following prior inputs; id and kind never change, the generation is the base's plus the number of derivations, no signed constraint is dropped, and each stage is the one behind it with the update of an attestation whose input verifies and whose signatures, placement and constraints hold |
| AttestationGraph.ChainUnique | poc/attestation/sigstore_tuf_bundle/verify.py:496-510 | a bundle gives an input at most one derivation chain |
| AttestationGraph.AcceptedPackage | poc/attestation/sigstore_tuf_bundle/verify.py:600-947 | an accepted package delivers its own output: manifests with a bundle and any placement are signed, the placement and a removal name the base's content, every implied, signed and added constraint evaluated true, and the generation is positive, matches the chain and follows the target's state |
| AttestationGraph.PackageExact | poc/attestation/sigstore_tuf_bundle/verify.py:904-947 | a package is accepted if and only if it is for the agent's tenant, its trust update is good, and it delivers its own attestation, whose input verifies, whose output stands for that input and whose generation fits; and what is accepted is that output |
| AttestationGraph.AttestationExact | poc/attestation/sigstore_tuf_bundle/verify.py:600-890 | an attestation is accepted if and only if it is unvisited with fewer than 64 nodes visited, its input verifies, its signatures, placement and constraints hold, and its generation fits |
| AttestationGraph.SignedInputExact | poc/attestation/sigstore_tuf_bundle/verify.py:405-451 | a signed input verifies if and only if its signature holds and it is in date, and to what was signed |
| AttestationGraph.DerivedInputExact | poc/attestation/sigstore_tuf_bundle/verify.py:484-597 | a derived input verifies if and only if its unvisited prior verifies to the declared content and an accepted update attestation of the bundle updates it: the first update manifest's body, the same id and kind, added constraints after the old, one generation on |
| AttestationGraph.VisitedOnlyRefuses | poc/attestation/sigstore_tuf_bundle/verify.py:506-525 | whatever verifies along one path through the bundle verifies to the same along every path that has visited less |
| AttestationGraph.InputHoldsOnce | poc/attestation/sigstore_tuf_bundle/verify.py:454-597 | an input verifies to one thing only, whatever path leads to it |
| AttestationGraph.InferredOnChain | poc/attestation/sigstore_tuf_bundle/build.py:297-301 | along a chain the builder's unguarded recursion ends and adds one per derivation |
| AttestationGraph.BuilderAgrees | poc/attestation/sigstore_tuf_bundle/build.py:274-301 | the builder infers the accepted generation if and only if the base signed one other than zero or, having signed none, the package claims the length of the chain |
| AttestationGraph.ZeroBaseVerifies | poc/attestation/sigstore_tuf_bundle/build.py:297-301 | a package on a base of generation zero that verifies at generation one and is inferred as two |
| AttestationGraph.NoChainNoVerification | poc/attestation/sigstore_tuf_bundle/verify.py:506-525 | an input whose prior inputs run in a circle or off the bundle is never verified |

## Left out

- Real cryptography, JSON and hex encodings, X.509, timestamp tokens and TUF: terms and deterministic functions, as above.
- OIDC discovery, HTTP clients, browser login and command-line tools: network and user interface.
- CEL evaluation and the derivation of implied output constraints in the attestation verifier: functions of an oracle.
- Context cancellation, mutexes and defensive copies: values are immutable here and each call or step is atomic.
- The record of the last delivery attempt in the v3 agent (poc/trust-model-v3/deliveryagent/agent.go:626-653): observation for tests only.
- The v3 resource manager and client: the agent is proved against any manager, and the builders show that an honest one is accepted.
- The storage of Merkle and sparse trees by node and revision: a tree is the sequence or map it stands for.
- Revisions and identifiers are unbounded numbers, except log sizes, log indexes and delivery generations, which are 64-bit.
- The authorization of callers and the preparation of enrollments by the resource manager: they decide only whether an acceptance is attempted.
- ResourceManager.Manager.PushToRoute: the log does not grow during the loop; DeliveryRoute covers growth at every step.
- ProvenanceAgent.EveryActionJustified: the generation fence and the log behind the temporal facts are left to TargetRuns, which adds both.
- TargetRuns.TargetActsJustified: trusted time observations stay a given function, since no verifier for them is part of the source.
- Package size and proof size limits (poc/provenance-suites/deliveryagent/catalog.go:155-268): bounds on work, which only reject.
- Trust configuration updates and validation at bootstrap: not implemented as a delivery in the source, and fixed for a run here.
- The status mirror and its reports to the platform (poc/fleetshift-controller-runtime/provider/status_mirror.go): a status write either is reported or fails.
- Label filters of lists, and the fan-out of one broadcaster to several clients: one kind and one client show the protocol.
- WatchRuns.NaiveAgreesExactly: its condition is about the order in which broadcasts arrive, which no caller of the store controls.
- poc/attestation/hybrid/model.py: it shares the recursion of the attestation verifier but checks generations slightly differently.
- What a TUF refresh checks: whether the trust update of a package is good is a given, and so are the signature checks under it.
- poc/attestation/chain, poc/ocm-work-agent-adapter, poc/gcp-hcp, poc/ocp-archive and the extensions: earlier prototypes, adapters and build configuration.
