# Verification of the bid platform's stateful core

A Dafny model of the parts of the platform that keep state over time, with proofs of what they keep.
`dafny verify dfyconfig.toml` checks all of it.

**The bid workflow** (`WorkflowModel.dfy`, `BidWorkflow.dfy`). One object with the workflow's fields and one method per
handler. Activities return arbitrary values or fail; signals arrive at every `await`. `Workflow.Inv` holds at every
`await`, hence in everything a query can see: each artifact present was built from the versions now present of all it
reads (`Fresh`), the slots filled are exactly those of the profile's stages before the current one (`FilledBelow`,
`PlaceOk`), the review log is exactly the consumed prefix of the signal queue (`QueueOk`), the finished gate rounds obey
the gate's rules (`RoundsOk`) and the emitted events form a chain (`Chained`). `Run` is the main theorem.

**The read model** (`Projection.dfy`, `Codec.dfy`, `Consumer.dfy`, `Composition.dfy`). The log and the incrementally
maintained rows, the text format of the stream in both directions, the consumer that applies, fails and acknowledges,
and the composition of all of these with the workflow: `Composition.RunIsProjected`.

**The token publisher** (`TokenStream.dfy`). A step function over all interleavings of calls, suspended calls, timers
and queued tasks, and the object whose methods are those steps.

**Confirming a parse session** (`Confirm.dfy`, `ObjectStore.dfy`). The two-step confirm protocol under every
interleaving, the moving of key prefixes under crashes and retries, and where the two do not fit together.

**Indexes, chunkers, model calls** (`LinkGraph.dfy`, `Chunking.dfy`, `Indexing.dfy`, `Conversation.dfy`).

Costs are whole micro-USD: the producer prints six decimals and both columns have scale 6. Timers,
failing transactions and the number of requests a store answers are inputs; activity results and the model's answers are
nondeterministic choices. Activities that may raise return a flag and record the failure in `raised`; a handler that
receives `false` ends the run as an uncaught exception would.

## What the code does not do

Each of these is proved of the model, which follows the code.

- A bid blocked at the gate announces S9_DONE and never S9_BLOCKED, so its row is never terminal although the read model
  has a terminal state for it (`Composition.RunIsProjected`, `BidWorkflow.Workflow.LastAnnounced`).
- A third request for changes clears artifacts and records a loop-back before it blocks. A bid blocked that way has lost
  its package and everything downstream of the target, while one blocked by a timeout or a rejection keeps all of it
  (`BidWorkflow.Workflow.BlockedShelf`). The history can hold three loop-backs with two rewinds
  (`WorkflowModel.ThreeRequestsBlock`); loop-backs and rewinds are equally many exactly when the last round was not
  capped (`WorkflowModel.LoopBacksAreRewinds`).
- Nothing stops a second start of a bid's workflow, every start numbers its events from 1, and the log's key does not
  hold the workflow id. The second run's events count as replays up to the length of the first, so the row shows the
  second run exactly when it is the longer one (`Composition.ShowsSecondRunIff`) and lacks the costs of its events up to
  that length (`Composition.SecondRunIsProjected`): a finished bid stays COMPLETED while its second run is blocked
  (`Composition.RestartedBidIsProjected`, `Composition.DeclinedThenRestarted`).
- Late entries do not merge their artifact keys, so `artifactsDone` depends on the delivery order
  (`Projection.LateArtifactIsLost`, and `Projection.LateStampIsWrong` where only a time is wrong). It is what in-order
  delivery leaves exactly when every key's first carrier arrived on time (`Projection.ArtifactsInOrderIff`).
- A push taken while a node change waits for its flush is published under the next node (`TokenStream.DisturbedLeaks`);
  over any run that is the only way (`TokenStream.OwnTextRunIff`).
- `setStatus` can confirm a session without a bid (`Confirm.RunKeepsIff`), and `markAbandoned` does not ask the lifecycle
  guard: it abandons PARSING and FAILED sessions (`Confirm.GuardBypassed`), and that is the only way around the guard
  (`Confirm.GuardRespectedIff`).
- `markAbandoned` and `setResult` load, await and save a whole row. A confirm in between is undone by the save
  (`Confirm.StaleSaveIff`, `Confirm.StaleSaveGivesTwoBids`), and an abandon in between is undone by a result
  (`Confirm.StaleSaveMovesIff`, `Confirm.StaleSaveRevives`).
- The un-rename after a failed confirm uses the literal id `rollback-pending`, so it moves nothing back
  (`Confirm.FailedConfirmRestoresIff`). Each confirm makes a new bid, so a retry that succeeds has all of the session's
  objects exactly when no failed attempt took one away (`Confirm.ConfirmedHasAllIff`).
- The confirm transaction names no isolation level. Where the database does not serialise it, two confirms that both see
  READY give a session two bids (`Confirm.LateConfirmIff`, `Confirm.OverlapGivesTwoBids`).
- `deletePrefix` does not read a batch's list of failed keys and counts them as deleted
  (`ObjectStore.ObjectStoreService.DeletePrefix`).

## Model

| member | source | states |
|---|---|---|
| BidWorkflow.Workflow.Run | src/ai-service/workflows/bid_workflow.py:295-347 | For every input, every stream of signals at every await and every failing activity: the invariant holds at the end; a run that returns is either declined with no artifact and the phases S0_DONE, S1_DONE, S1_NO_BID, or has announced exactly the phases its gate rounds imply and ends blocked (stopped by the last round, nothing submitted) or finished (approved package submitted, retrospective stored), with the announced costs equal to all cost spent; a run cut short has announced a prefix of such a trail. A run is declined exactly if the triage timer fired before any signal or the signal that ended the wait did not approve, and an approved one has the reviewer's profile or else the card's estimate. It is cut short exactly if an activity failed for good or the input names neither an intake nor a card; a last round that timed out was waiting for a reviewer whose timer fired. It terminates. |
| BidWorkflow.Workflow.RunPipeline | src/ai-service/workflows/bid_workflow.py:322-347 | The main loop ends, by the measure (3 - rounds, stages left), at the position its announcements imply, and every handler's entry assertions hold when it is called |
| BidWorkflow.Workflow.TurnAtGate | src/ai-service/workflows/bid_workflow.py:324-339 | The gate's turn goes on to the next stage or rewinds to the target left in `_state`; it rewinds only before the third round, and it announces S9_DONE either way |
| BidWorkflow.Workflow.EventChain | src/ai-service/workflows/bid_workflow.py:306-339 | Emitted events are numbered 1, 2, 3, ..., each leaves the state its predecessor entered, and after the human gate each is the next stage of the profile's pipeline or one of at most two jumps back from S9 to a loop-back target |
| BidWorkflow.Workflow.LastAnnounced | src/ai-service/workflows/bid_workflow.py:323-347 | The last event of a run that returned past the human gate is S9_DONE if it is blocked and S11_DONE if it finished: S9_BLOCKED is never announced |
| BidWorkflow.Workflow.RoundsCapped | src/ai-service/workflows/bid_workflow.py:691-709 | At most three rounds and at most two rewinds in any reachable state past the human gate |
| BidWorkflow.Workflow.Await | src/ai-service/workflows/bid_workflow.py:256-264 | Any number of signals of both kinds keeps the invariant and only appends to the review queue |
| BidWorkflow.Workflow.AwaitTriage | src/ai-service/workflows/bid_workflow.py:380-387 | The wait times out exactly if no signal was there and the timer fires first; a signal already there ends it at once and is the one ruled on |
| BidWorkflow.Workflow.WaitHumanGate | src/ai-service/workflows/bid_workflow.py:378-404 | True if and only if the wait ended with a signal and that signal approved; then the profile is the reviewer's choice or else the card's estimate, and bid card and pipeline agree with it; otherwise the state is S1_NO_BID and nothing else has changed |
| BidWorkflow.Workflow.WaitForReview | src/ai-service/workflows/bid_workflow.py:659-664 | The wait ends with a signal exactly if one was already waiting or the timer does not fire |
| BidWorkflow.Workflow.Emit | src/ai-service/workflows/bid_workflow.py:889-916 | Appends one event with the next number, the given phase and cost, and the run's ids and profile |
| BidWorkflow.Workflow.NotifyStateTransition | src/ai-service/workflows/bid_workflow.py:877-916 | Announces the phase with its cost and records it as the previous state, whether or not the notification succeeds |
| BidWorkflow.Workflow.Store | src/ai-service/workflows/bid_workflow.py:456-609 | Storing a result built from the current versions of everything its handler reads keeps every artifact fresh, fills exactly its slot and adds its cost, if it has one, to what the run has spent |
| BidWorkflow.Workflow.BuiltFromCurrent | src/ai-service/workflows/bid_workflow.py:456-609 | In every reachable state each artifact present was built from the current bid card and the present versions of exactly what its stage reads, listed stage by stage: the package of all eight others, the breakdown of the requirements and, if there is one, the design |
| BidWorkflow.Workflow.ReflectsOnSix | src/ai-service/workflows/bid_workflow.py:813-836 | The retrospective was made from the present versions of all artifacts but the scoping, the design and the package |
| BidWorkflow.Workflow.RunS2Scoping | src/ai-service/workflows/bid_workflow.py:456-465 | A fresh scoping result and nothing else is stored and the state becomes S2_DONE; on failure nothing is stored |
| BidWorkflow.Workflow.RunS3Streams | src/ai-service/workflows/bid_workflow.py:469-514 | The scoping assertion holds; three fresh drafts and nothing else are stored together or, on failure, none |
| BidWorkflow.Workflow.RunS4Convergence | src/ai-service/workflows/bid_workflow.py:518-531 | The entry assertion holds; the report is built from the three current drafts and stored alone |
| BidWorkflow.Workflow.RunS5SolutionDesign | src/ai-service/workflows/bid_workflow.py:533-545 | The entry assertion holds; the design is built from the current report and architecture, and its cost is what the phase reports |
| BidWorkflow.Workflow.RunS6Wbs | src/ai-service/workflows/bid_workflow.py:547-560 | The entry assertion holds; the breakdown is built from the current requirements and from the design when the profile has one |
| BidWorkflow.Workflow.RunS7Commercial | src/ai-service/workflows/bid_workflow.py:562-574 | The entry assertion holds; pricing is built from the current breakdown |
| BidWorkflow.Workflow.RunS8Assembly | src/ai-service/workflows/bid_workflow.py:576-609 | The entry assertion holds; the package is built from the current version of all eight other artifacts and of all reviews so far |
| BidWorkflow.Workflow.TakeSignal | src/ai-service/workflows/bid_workflow.py:674-684 | The oldest unconsumed signal becomes the next review record; the log stays the rounds' records plus the consumed signals in arrival order |
| BidWorkflow.Workflow.CollectVerdicts | src/ai-service/workflows/bid_workflow.py:650-689 | Reviewers are asked in turn until a timeout, a verdict other than an approval, or the profile's count; a timeout needs the timer of that reviewer, and by then every signal that waited at the start has been consumed |
| BidWorkflow.Workflow.RouteOnChangesRequested | src/ai-service/workflows/bid_workflow.py:711-769 | The target is the routing rule's; exactly the artifacts downstream of it are cleared, the others are the same and stay fresh; the loop-back is recorded once |
| BidWorkflow.Workflow.ClearDownstream | src/ai-service/workflows/bid_workflow.py:747-748 | The loop over the clean-up table removes exactly the table's slots and leaves those of earlier stages unchanged and fresh |
| BidWorkflow.Workflow.DecideRound | src/ai-service/workflows/bid_workflow.py:663-709 | Timeout and rejection block, a request for changes rewinds or (third round, no target) blocks, approvals pass; the round is recorded with the signals it consumed. A rewound or capped request removes exactly the artifacts downstream of its target, every other verdict none; the filled slots then end before the target or before the gate |
| BidWorkflow.Workflow.RunS9ReviewGate | src/ai-service/workflows/bid_workflow.py:611-709 | One more round is recorded; state, position and the artifacts left are exactly those its outcome prescribes, the blocked outcomes included; a round times out only on its reviewer's timer and with no signal left waiting; if and only if the pre-review fails, no round is recorded, and then no artifact is removed |
| BidWorkflow.Workflow.BlockedShelf | src/ai-service/workflows/bid_workflow.py:663-709 | In every reachable blocked state an artifact is there if and only if the profile has its stage and that stage comes before the gate or, after a request for changes stopped by the cap, before the target of that request; the package is there if and only if the last round was not capped |
| BidWorkflow.Workflow.RunS10Submission | src/ai-service/workflows/bid_workflow.py:799-811 | The package assertion holds; what is submitted is the package on the shelf with the whole review log, marked approved |
| BidWorkflow.Workflow.RunS11Retrospective | src/ai-service/workflows/bid_workflow.py:813-836 | The submission assertion holds; the retrospective is made from this submission, the bid card, the current version of the six artifacts passed and the whole review log, and its cost is counted |
| WorkflowModel.PipelineOrdered | src/ai-service/workflows/bid_workflow.py:37-42 | Every profile's pipeline is in stage order, starts the loop at S0.5 and skips exactly S5 and S7, for Bid-S only |
| WorkflowModel.OnlyBidSSkips | src/ai-service/workflows/bid_workflow.py:37-42 | Bid-S has 11 stages, the other profiles all 13; what Bid-S lacks is S5 and S7 |
| WorkflowModel.PipelineUnique | src/ai-service/workflows/bid_workflow.py:37-42 | Membership and order determine the pipeline, so the loop's table lookup cannot differ from the one kept at the gate |
| WorkflowModel.Successor | src/ai-service/workflows/bid_workflow.py:323-339 | Before the gate the next position holds the next stage the profile has, and S9 follows only S8 |
| WorkflowModel.BuildKeepsFresh | src/ai-service/workflows/bid_workflow.py:456-609 | Filling an empty slot that nothing present reads keeps every artifact fresh |
| WorkflowModel.ReadyForWbs | src/ai-service/workflows/bid_workflow.py:547-557 | With S6 next, the requirements draft is there and the input is the current version of what S6 reads, the missing design on Bid-S included |
| WorkflowModel.ReadyForAssembly | src/ai-service/workflows/bid_workflow.py:576-606 | With S8 next, the handler's assertion holds and its input is the current version of all eight slots it reads |
| WorkflowModel.CleanupIsDownstream | src/ai-service/workflows/bid_workflow.py:89-104 | The clean-up table names exactly the slots written at or after the target |
| WorkflowModel.CleanupKeepsFresh | src/ai-service/workflows/bid_workflow.py:747-748 | Clearing the table's slots leaves only fresh artifacts and exactly those of earlier stages |
| WorkflowModel.NamedTargetsExact | src/ai-service/workflows/bid_workflow.py:725-727 | The candidates are exactly the targets the comments name |
| WorkflowModel.Earliest | src/ai-service/workflows/bid_workflow.py:728-730 | The first candidate after the stable sort is a named target that no named target precedes |
| WorkflowModel.ForwardFirst | src/ai-service/workflows/bid_workflow.py:736-745 | If any listed stage qualifies, the fall-forward list is not empty and starts with the first one that does |
| WorkflowModel.RouteIsEarliestAvailable | src/ai-service/workflows/bid_workflow.py:723-745 | A target always exists, so the "no valid target" branch is dead; it is the earliest loop-back stage the pipeline has at or after the earliest stage named, and S8 when no comment names one |
| WorkflowModel.NamedStageIsTaken | src/ai-service/workflows/bid_workflow.py:723-745 | A request naming one stage goes back to it on every profile, except that S5 on Bid-S becomes S6 |
| WorkflowModel.NeverUnroutable | src/ai-service/workflows/bid_workflow.py:700-704 | No round of any history ends for want of a target |
| WorkflowModel.QueueTakes | src/ai-service/workflows/bid_workflow.py:674-684 | Consuming one signal keeps the log equal to the consumed prefix of the queue, in order |
| WorkflowModel.QueueCloses | src/ai-service/workflows/bid_workflow.py:642-691 | Closing a round moves its pre-review record and its signals into the finished rounds and loses none |
| WorkflowModel.ReviewCount | src/ai-service/workflows/bid_workflow.py:642-691 | Over any history the review log has one record a round plus one a consumed signal |
| WorkflowModel.RewindCount | src/ai-service/workflows/bid_workflow.py:691-709 | Rewinds never outnumber recorded loop-backs, nor those the rounds, and a history whose last round did not rewind has fewer rewinds than rounds |
| WorkflowModel.LoopBacksAreRewinds | src/ai-service/workflows/bid_workflow.py:699-709 | Recorded loop-backs and rewinds are equally many, except that there is one more loop-back exactly when the last round was a request for changes stopped by the cap |
| WorkflowModel.ThreeRequestsBlock | src/ai-service/workflows/bid_workflow.py:699-709 | An admissible history of three requests for changes, with three loop-backs to S8, two rewinds and a capped last round |
| WorkflowModel.RoundsBounded | src/ai-service/workflows/bid_workflow.py:691-709 | Every admissible history has at most three rounds and at most two rewinds |
| WorkflowModel.RewindsAreJumps | src/ai-service/workflows/bid_workflow.py:711-745 | Every rewind of a history goes to a loop-back stage the pipeline has |
| WorkflowModel.LastReviewApproved | src/ai-service/activities/submission.py:31-37 | After a passed round the newest record of the log is an approval, so the checklist item is true |
| WorkflowModel.NewestDecides | src/ai-service/activities/submission.py:31-37 | The checklist item of a log is its newest record's approval, whatever came before |
| WorkflowModel.ApprovalSafety | src/ai-service/workflows/bid_workflow.py:644-709 | What is submitted is the very package the last round judged, the log it carries ends with exactly the profile's number of consecutive approvals, taken in that round, and so the checklist item comes out true |
| BidWorkflow.Workflow.SubmissionIsApproved | src/ai-service/activities/submission.py:31-37 | In every reachable state of every run, cut short or not: whatever has been submitted is the approved package on the shelf with a log ending in the profile's number of approvals |
| BidWorkflow.Workflow.SubmissionTookApprovals | src/ai-service/workflows/bid_workflow.py:73-78 | In every reachable state, whatever has been submitted carries a log whose last 1 (Bid-S, Bid-M), 3 (Bid-L) or 5 (Bid-XL) records are approvals, and the last round consumed exactly that many signals |
| WorkflowModel.PassTakesApprovals | src/ai-service/workflows/bid_workflow.py:73-78 | A round of any history that passed consumed exactly 1, 1, 3 or 5 signals, by profile, all of them approvals |
| BidWorkflow.Workflow.FinishedIsApproved | src/ai-service/workflows/bid_workflow.py:323-347 | A run that finished has submitted with those approvals |
| BidWorkflow.Workflow.LogCount | src/ai-service/workflows/bid_workflow.py:642-691 | At every gate exit the length of the review log is the round counter plus the consumed signals |
| WorkflowModel.ChainExtends | src/ai-service/workflows/bid_workflow.py:892-916 | An event with the next number that leaves the last state extends the chain and its phases by one and raises its cost by exactly the event's, if it has one |
| WorkflowModel.StageAnnouncesItsSlots | src/ai-service/workflows/bid_workflow.py:200-217 | A stage announces the key of an artifact if and only if its handler writes that artifact |
| WorkflowModel.AnnouncedKeysAreApi | src/api-gateway/src/workflows/artifact-keys.ts:10-25 | The keys announced by the stages in pipeline order are exactly the keys the gateway's API accepts, in its order; a declined bid and S0.5 announce none |
| WorkflowModel.WalkForward | src/ai-service/workflows/bid_workflow.py:323-339 | One more handled stage extends the announced walk by that stage |
| WorkflowModel.WalkBack | src/ai-service/workflows/bid_workflow.py:336-338 | A rewind from the gate starts a new pass at the target without changing what has been announced |
| WorkflowModel.TrailSteps | src/ai-service/workflows/bid_workflow.py:323-339 | Every walk consists of pipeline steps and of jumps from S9 to a rewind's target, and goes back at most once a rewind |
| WorkflowModel.AnnouncedInOrder | src/ai-service/workflows/bid_workflow.py:306-339 | The phases of any admissible run form the prologue and such a trail, with fewer than three steps back, ending at the loop's position |
| Projection.ReplayIsNoOp | src/api-gateway/src/bid-state-projection/bid-state-projection.consumer.ts:191-248 | An entry whose key is in the log changes nothing |
| Projection.ApplyKeepsView | src/api-gateway/src/bid-state-projection/bid-state-projection.consumer.ts:174-283 | After any one entry (new, repeated, late) the rows are again a function of the log: a row for exactly the logged bids, showing the newest transition, the sum of all costs and the stamps of what came on time |
| Projection.ApplyAllKeepsView | src/api-gateway/src/bid-state-projection/bid-state-projection.consumer.ts:174-283 | The same after any sequence of entries |
| Projection.LogIsDelivered | src/api-gateway/src/bid-state-projection/bid-state-projection.consumer.ts:191-219 | With one content a key, the log is exactly the set of delivered entries, each once |
| Projection.CostIsAddedOnce | src/api-gateway/src/bid-state-projection/bid-state-projection.consumer.ts:237-264 | An entry new to the log adds exactly its cost to its bid's total, on time or late, and a first row starts from nothing; an entry without a cost and a replay add nothing, and no other bid's total changes |
| Projection.OutcomesOfFinalStates | src/api-gateway/src/bid-state-projection/bid-state.types.ts:7-20 | The three final states with their outcomes; no other state is terminal or has one |
| Projection.LogIsFirsts | src/api-gateway/src/bid-state-projection/bid-state-projection.consumer.ts:191-219 | For any delivery the log is the first delivered entry of each key, in order of delivery |
| Projection.ReplaysKeepRow | src/api-gateway/src/bid-state-projection/bid-state-projection.consumer.ts:191-248 | A delivery whose entries of a bid all repeat logged keys leaves the bid's whole row as it is, whatever they and the other entries carry |
| Projection.ReplaysAreNoOp | src/api-gateway/src/bid-state-projection/bid-state-projection.consumer.ts:191-248 | A delivery of nothing but logged keys changes nothing |
| Projection.TotalCostOrderFree | src/api-gateway/src/bid-state-projection/bid-state-projection.consumer.ts:237-264 | A bid's cost depends on which entries are logged, not on their order |
| Projection.Confluence | src/api-gateway/src/bid-state-projection/bid-state-projection.consumer.ts:191-283 | Two deliveries of the same entries, in any order and with any repeats, log the same entries and agree on every row field except `artifactsDone` |
| Projection.StampsExact | src/api-gateway/src/bid-state-projection/bid-state-projection.consumer.ts:250-258 | A key is stamped exactly when an entry that arrived on time carries it, with the first such entry's time |
| Projection.ArtifactsCompleteIff | src/api-gateway/src/bid-state-projection/bid-state-projection.consumer.ts:237-258 | The names in `artifactsDone` are all logged ones if and only if each key that came late also came on time |
| Projection.FirstStampsIff | src/api-gateway/src/bid-state-projection/bid-state-projection.consumer.ts:250-258 | A key's first carrier stamps it if and only if it arrived on time |
| Projection.StampRightIff | src/api-gateway/src/bid-state-projection/bid-state-projection.consumer.ts:237-258 | Key by key: the stamp is the time in-order delivery gives if the key's first carrier arrived on time, and only then unless another carrier happened at the very same time |
| Projection.ArtifactsInOrderIff | src/api-gateway/src/bid-state-projection/bid-state-projection.consumer.ts:237-258 | All of `artifactsDone` is what in-order delivery would have left if and only if every key's first carrier arrived on time (one way without, both ways with, distinct times) |
| Projection.LateStampIsWrong | src/api-gateway/src/bid-state-projection/bid-state-projection.consumer.ts:237-258 | Two entries of one key, delivered in the other order: every name is there and the time is the later one |
| Projection.LateArtifactIsLost | src/api-gateway/src/bid-state-projection/bid-state-projection.consumer.ts:237-258 | Two entries of one bid, delivered in the other order, leave an artifact out of the row |
| Projection.InOrderLog | src/api-gateway/src/bid-state-projection/bid-state-projection.consumer.ts:191-219 | Delivered in order, with any repeats, the log is ascending for every bid |
| Projection.InOrderArtifacts | src/api-gateway/src/bid-state-projection/bid-state-projection.consumer.ts:250-258 | Delivered in order, with any repeats, `artifactsDone` is the union of all keys, each with the time of the first transition carrying it |
| Consumer.ProjectionConsumer.InsertTransitionLog | src/api-gateway/src/bid-state-projection/bid-state-projection.consumer.ts:191-219 | Appends the row and says so exactly when its key is not in the log |
| Consumer.ProjectionConsumer.UpsertProjection | src/api-gateway/src/bid-state-projection/bid-state-projection.consumer.ts:226-283 | The row becomes the specified one: overwritten by a newer transition, otherwise touched only by a cost new to the log |
| Consumer.ProjectionConsumer.ApplyTransition | src/api-gateway/src/bid-state-projection/bid-state-projection.consumer.ts:174-179 | A transaction that fails at any statement leaves both tables as they were; every other one is one step of the specification |
| Consumer.ProjectionConsumer.ProcessEntry | src/api-gateway/src/bid-state-projection/bid-state-projection.consumer.ts:151-167 | A well-formed entry is applied exactly if its transaction does not fail; it is acknowledged exactly if it was applied or is malformed and the acknowledgement does not fail |
| Consumer.ProjectionConsumer.ProcessBatch | src/api-gateway/src/bid-state-projection/bid-state-projection.consumer.ts:147-168 | Exactly the well-formed entries whose transaction does not fail are applied, in order, and exactly those and the malformed ones whose acknowledgement does not fail are acknowledged; an acknowledged entry is malformed or in the log |
| Consumer.RowsAreView | src/api-gateway/src/bid-state-projection/bid-state-projection.consumer.ts:147-283 | In every reachable state of the consumer the rows are a materialised view of the log |
| Codec.SeqRoundTrip | src/ai-service/activities/state_transition.py:155 | A printed sequence number parses back |
| Codec.CostRoundTrip | src/ai-service/activities/state_transition.py:162-164 | A cost printed with six decimals parses back to the same number of micro-USD, negative ones included |
| Codec.CharRoundTrip | src/ai-service/activities/state_transition.py:160 | Any character survives JSON escaping, surrogate pairs included |
| Codec.KeysRoundTrip | src/ai-service/activities/state_transition.py:160 | Any list of artifact keys survives dumping and parsing |
| Codec.SeqWithTail | src/api-gateway/src/bid-state-projection/bid-state-projection.consumer.ts:298-302 | A number is read up to the first character that is no digit, and negated after a minus |
| Codec.ExponentShifts | src/api-gateway/src/bid-state-projection/bid-state-projection.consumer.ts:308-315 | A cost with an exponent is read as that number scaled by the power of ten, up or down |
| Codec.MicroIsNearest | src/api-gateway/src/bid-state-projection/bid-state-projection.entity.ts:57-66 | What the column keeps of a cost is the nearest whole number of micro-USD |
| Codec.LastOfName | src/api-gateway/src/bid-state-projection/bid-state-projection.consumer.ts:293-296 | Of two values of one field name the later wins, other fields are untouched, and a name without a value has the empty text |
| Codec.LenientParse | src/api-gateway/src/bid-state-projection/bid-state-projection.consumer.ts:297-337 | An entry with only bid, number, state and profile parses with defaults for all else and ignores what follows the number; a negative number, no number, or an empty bid, state or profile make it malformed |
| Codec.FieldMap | src/api-gateway/src/bid-state-projection/bid-state-projection.consumer.ts:293-296 | The loop builds the field map: the last of equal names wins, a name without a value gets the empty text |
| Codec.ParseEntry | src/api-gateway/src/bid-state-projection/bid-state-projection.consumer.ts:289-337 | The parser accepts and rejects exactly what the specification of the format does, with the same values |
| Codec.RoundTrip | src/ai-service/activities/state_transition.py:150-165 | Parsing the flattened fields of any transition gives the transition back, exactly when its bid, state and profile are not empty; otherwise the entry is malformed |
| Composition.PhaseTextIsTerminal | src/api-gateway/src/bid-state-projection/bid-state.types.ts:7-20 | Of all phases a run can announce, exactly S1_NO_BID and S11_DONE are terminal for the read model, with their outcomes |
| Composition.StageTextIsNumber | src/ai-service/workflows/bid_workflow.py:37-42 | A stage is written as S and its number, counted in pipeline order; S0.5 is S0_5 |
| Composition.NamesOnTheWire | src/ai-service/activities/state_transition.py:150-165 | A completed stage is announced as its name with _DONE, a decline as S1_NO_BID, and the profiles as S, M, L and XL |
| Composition.PhaseTextInjective | src/ai-service/activities/state_transition.py:150-165 | Different phases have different names, so a row's state tells the phase |
| Composition.EventRoundTrip | src/ai-service/activities/state_transition.py:150-165 | Every event of a run passes through the stream unchanged |
| Composition.DeliveredEntries | src/api-gateway/src/bid-state-projection/bid-state-projection.consumer.ts:289-337 | Every event whose fields are on the stream is among the parsed entries, whatever else is there |
| Composition.LogIsRunIff | src/api-gateway/src/bid-state-projection/bid-state-projection.consumer.ts:191-219 | With every event of a run delivered, what is logged of the bid is exactly the run if and only if each of the bid's keys was first delivered with an event of the run |
| Composition.EntriesAreProjected | src/api-gateway/src/bid-state-projection/bid-state-projection.consumer.ts:174-283 | Then, and whatever was delivered later under the same keys, the row is at the run's last event with its workflow id and the sum of all costs, and the log holds exactly the seqs 1 to n |
| Composition.EventsAreProjected | src/api-gateway/src/bid-state-projection/bid-state-projection.consumer.ts:174-283 | The same from the stream's fields: delivered at least once in any order amid other bids' and malformed entries, and unless another run of the bid came first with some key, a run's events end in a row at the last event, with the sum of all costs, and in a log of exactly the seqs 1 to n |
| Composition.ChainIsProjected | src/api-gateway/src/bid-state-projection/bid-state-projection.consumer.ts:174-283 | A chain of events that ends as a declined, blocked or finished run does leaves the matching outcome, and a terminal row if and only if it is not the blocked one |
| Composition.ConsumedRunIsProjected | src/api-gateway/src/bid-state-projection/bid-state-projection.consumer.ts:147-283 | Through the failing consumer: once every event of a returned run has been applied, each of its keys first with an event of the run, the consumer's own tables show the run's last phase, cost, outcome and seqs, whatever failed on the way |
| Composition.AcknowledgedRunIsProjected | src/api-gateway/src/bid-state-projection/bid-state-projection.consumer.ts:147-283 | The same as soon as every event of the run has been acknowledged |
| Composition.RunIsProjected | src/ai-service/workflows/bid_workflow.py:295-347 | For every run that returned and whose events were the first delivered under their keys: the row's cost is what the run spent; it is terminal if and only if the bid was declined or finished, so a bid blocked at the gate never shows as terminal |
| Composition.TwoRunsAreProjected | src/api-gateway/src/bid-state-projection/bid-state-projection.consumer.ts:191-283 | Two runs of one bid, delivered in any order and interleaved in any way: log and row are those of a sequence as long as the longer run, whose n-th event is that of the run first delivered with number n |
| Composition.SecondRunIsProjected | src/api-gateway/src/bid-state-projection/bid-state-projection.consumer.ts:191-283 | A second run delivered after the whole of the first: log and row are the first run followed by what the second has past its length; the row's cost is both runs' costs less the costs of the second run's events up to that length |
| Composition.ShorterRunIsLost | src/api-gateway/src/bid-state-projection/bid-state-projection.consumer.ts:191-248 | A second run no longer than the first leaves the bid's whole row, artifacts included, as the first run left it, with other bids' entries in between |
| Composition.ShowsSecondRunIff | src/ai-service/workflows/router.py:49-57 | Every start has a workflow id of its own; the row shows the second run's if and only if that run has more events than the first |
| Composition.SecondRunIsReplayIff | src/api-gateway/src/bid-state-projection/bid-state-projection.consumer.ts:191-248 | Applied straight after the first run's events, the second run's change the tables if and only if there are more of them |
| Composition.DeclinedThenRestarted | src/api-gateway/src/workflows/workflows.service.ts:57-74 | A bid declined at triage and started again is still shown as declined, with the old workflow id, when the second run has announced S0_5_DONE |
| Composition.RestartedBidIsProjected | src/api-gateway/src/workflows/workflows.controller.ts:40-45 | A bid whose workflow was started again once its first run had returned: the consumer's row shows workflow id, outcome and length of the longer run, and unless that is the second one, only the first run's cost |
| TokenStream.StepKeeps | src/ai-service/agents/stream_publisher.py:94-185 | Every atomic step of every call, timer, queued task and resumption keeps the publisher's invariant |
| TokenStream.RunKeeps | src/ai-service/agents/stream_publisher.py:94-185 | Over every interleaving: a session's messages in order, then the buffer, are the text it inherited and was given; they are numbered from 1; the character count is right and below the threshold; an open publisher with text has a flush coming, and there are never two timers |
| TokenStream.NothingLost | src/ai-service/agents/stream_publisher.py:94-158 | Over every interleaving, the text of all messages of all sessions, then the buffer, is all text ever accepted: nothing lost, repeated or reordered |
| TokenStream.AcceptedIsPushed | src/ai-service/agents/stream_publisher.py:101-118 | Over every run, the text counted as accepted is the concatenation, in order, of the deltas of all pushes made after some `set_node` and before any `aclose` |
| TokenStream.PushedIsPublished | src/ai-service/agents/stream_publisher.py:94-158 | Over every interleaving, the text of all messages of all sessions, then the buffer, is exactly the text pushed after some `set_node` and before any `aclose`, in order |
| TokenStream.ClosedIgnores | src/ai-service/agents/stream_publisher.py:101-122 | A closed publisher takes no text and announces no end, and closing it again changes nothing |
| TokenStream.DoneClosesNode | src/ai-service/agents/stream_publisher.py:120-136 | A `mark_done` on an open node publishes what is buffered, if anything, and then one empty message marked done, numbered next: everything accepted has then been published |
| TokenStream.DoneClosesIff | src/ai-service/agents/stream_publisher.py:120-136 | With anything in between, the done message of a `mark_done` that had to wait closes the session it was called on, with all of that session's text before it, if and only if no node change took effect meanwhile and nothing is buffered when it resumes |
| TokenStream.OwnTextRunIff | src/ai-service/agents/stream_publisher.py:94-158 | Over every run, every session publishes exactly its own text if and only if no `set_node`, resuming after its flush, finds that more text has been buffered |
| TokenStream.CleanStartIff | src/ai-service/agents/stream_publisher.py:94-99 | A session inherits text exactly when the buffer is not empty at the moment the node changes |
| TokenStream.UndisturbedIsClean | src/ai-service/agents/stream_publisher.py:94-118 | If no push is taken while a node change waits for its flush, every session publishes exactly its own text |
| TokenStream.DisturbedLeaks | src/ai-service/agents/stream_publisher.py:94-118 | A push during a node change's flush is published under the new node's name and numbering |
| TokenStream.TokenPublisher.SetNode | src/ai-service/agents/stream_publisher.py:94-99 | The call up to its suspension is the specified step |
| TokenStream.TokenPublisher.ResumeSetNode | src/ai-service/agents/stream_publisher.py:98-99 | The rest of the call is the specified step |
| TokenStream.TokenPublisher.Push | src/ai-service/agents/stream_publisher.py:101-118 | The call is the specified step: ignored, flushed at the threshold, or buffered with a timer armed |
| TokenStream.TokenPublisher.MarkDone | src/ai-service/agents/stream_publisher.py:120-136 | The call up to its suspension is the specified step |
| TokenStream.TokenPublisher.FlushNow | src/ai-service/agents/stream_publisher.py:138-158 | Cancels the timer and publishes the whole buffer as one message, if there is any |
| TokenStream.TokenPublisher.Close | src/ai-service/agents/stream_publisher.py:173-180 | Idempotent; cancels the timer |
| Confirm.StepKeepsIff | src/api-gateway/src/parse-sessions/parse-sessions.service.ts:109-273 | A step keeps confirmed sessions and bids in one-to-one correspondence if and only if it is not `setStatus` moving a READY session to CONFIRMED by hand |
| Confirm.RunKeepsIff | src/api-gateway/src/parse-sessions/materialize.service.ts:81-156 | Over every interleaving of creations, status changes, result syncs, abandons, confirm reads and confirm transactions, the correspondence holds at the end if and only if no step on the way confirmed by hand |
| Confirm.OneBidPerSession | src/api-gateway/src/parse-sessions/materialize.service.ts:104-156 | In every run of atomic steps, confirmations by hand included, a session yields at most one bid |
| Confirm.ResultLands | src/api-gateway/src/parse-sessions/parse-sessions.service.ts:132-169 | A result is taken by exactly the PARSING and READY sessions; then every given column holds the given value, every other column what it held, and the status changes only on request, from PARSING to READY |
| Confirm.StatusLands | src/api-gateway/src/parse-sessions/parse-sessions.service.ts:109-124 | `setStatus` makes exactly four moves: PARSING to READY or FAILED, READY to CONFIRMED or ABANDONED; an error text is kept exactly for a failure that gives one, and nothing else changes |
| Confirm.AbandonLands | src/api-gateway/src/parse-sessions/parse-sessions.service.ts:213-245 | `markAbandoned` takes every session that is not confirmed and changes only its status |
| Confirm.ReadRefuses | src/api-gateway/src/parse-sessions/materialize.service.ts:76-91 | The read before a confirm lets through exactly an unexpired READY session and reports a missing or expired open one as not found |
| Confirm.ConfirmLands | src/api-gateway/src/parse-sessions/materialize.service.ts:104-156 | A confirm that commits adds exactly one bid, of this session and with the content read, and binds the session to it in the user's name |
| Confirm.ContentIsLastSynced | src/api-gateway/src/parse-sessions/parse-sessions.service.ts:132-169 | Over every run, each column of a session holds the last value synced for it while the session was PARSING or READY |
| Confirm.BidsAreAsRead | src/api-gateway/src/parse-sessions/materialize.service.ts:76-156 | Over every run, each bid's content is, column by column, the last value synced before one earlier read of its session, which was READY at that read |
| Confirm.LateConfirmIff | src/api-gateway/src/parse-sessions/materialize.service.ts:104-156 | Where transactions are not serialised: one that saw READY and writes later keeps the correspondence if and only if the session has not been confirmed by then; if it has, the session ends with two bids and its row names the later one |
| Confirm.OverlapGivesTwoBids | src/api-gateway/src/parse-sessions/materialize.service.ts:104-156 | Two confirms that both read READY inside their transactions before either writes both succeed: two bids of one session, the row bound to the second |
| Confirm.TablesMoveTogether | src/api-gateway/src/parse-sessions/materialize.service.ts:104-156 | A step adds a bid if and only if it binds a session to one: neither table changes without the other |
| Confirm.GuardRespectedIff | src/api-gateway/src/parse-sessions/parse-sessions.service.ts:213-273 | A step makes only moves that `assertTransition` allows if and only if it does not abandon a PARSING or FAILED session |
| Confirm.GuardBypassed | src/api-gateway/src/parse-sessions/parse-sessions.service.ts:240-243 | Both moves that the guard forbids happen: a PARSING and a FAILED session are abandoned |
| Confirm.StepSettles | src/api-gateway/src/parse-sessions/parse-sessions.service.ts:213-245 | Status moves only along the lifecycle and to ABANDONED from PARSING and FAILED; a confirmed row never changes, and neither does any bid |
| Confirm.RunSettles | src/api-gateway/src/parse-sessions/parse-sessions.service.ts:247-273 | Over every run CONFIRMED and ABANDONED are final, FAILED ends at most in ABANDONED, and bids are never changed |
| Confirm.FailedConfirmChangesNothing | src/api-gateway/src/parse-sessions/materialize.service.ts:104-156 | The transaction succeeds exactly when nothing fails and the session is READY again inside it; otherwise neither table changes |
| Confirm.SecondConfirmLoses | src/api-gateway/src/parse-sessions/materialize.service.ts:81-156 | Of two confirms that both read READY at most one commits, whatever runs in between |
| Confirm.StaleSaveIff | src/api-gateway/src/parse-sessions/parse-sessions.service.ts:213-245 | When load and save of `markAbandoned` or `setResult` are not one step, the save breaks the correspondence if and only if the row has become CONFIRMED in between |
| Confirm.StaleSaveMovesIff | src/api-gateway/src/parse-sessions/parse-sessions.service.ts:132-245 | Such a save keeps to the lifecycle if and only if, for an abandon, the row is not CONFIRMED by now and, for a result, its status is the one saved or goes from PARSING to READY |
| Confirm.StaleSaveRevives | src/api-gateway/src/parse-sessions/parse-sessions.service.ts:132-169 | A result synced from a row loaded before an abandon turns the session READY again, with the bid correspondence intact, and it can then be confirmed |
| Confirm.StaleSaveGivesTwoBids | src/api-gateway/src/parse-sessions/parse-sessions.service.ts:132-169 | A result synced from a row loaded before a confirm reopens the session, and a second confirm then yields a second bid |
| Confirm.FailedConfirmRestoresIff | src/api-gateway/src/parse-sessions/materialize.service.ts:157-175 | A confirm that fails after the rename leaves the session's objects where they were if and only if there were none: the un-rename names no bid |
| Confirm.UnrenameMovesNothing | src/api-gateway/src/parse-sessions/materialize.service.ts:117-175 | A confirm that fails after its rename leaves the objects moved to its own bid's prefix |
| Confirm.ConfirmedHasAllIff | src/api-gateway/src/parse-sessions/materialize.service.ts:117-175 | After any number of failed confirms, each with a bid id of its own and failing inside or after its rename, the confirm that succeeds has all of the session's original objects under its bid's prefix if and only if no failed one took an object from the session |
| Confirm.MissingIsElsewhere | src/api-gateway/src/parse-sessions/materialize.service.ts:117-175 | An object the session no longer has after failed confirms is under the prefix of one of their bids, with its content |
| Confirm.ParseSessions.CreateSession | src/api-gateway/src/parse-sessions/parse-sessions.service.ts:72-95 | A PARSING row without result or bid |
| Confirm.ParseSessions.ChangeStatus | src/api-gateway/src/parse-sessions/parse-sessions.service.ts:109-124 | Missing session, forbidden move or the new status, as specified |
| Confirm.ParseSessions.SyncResult | src/api-gateway/src/parse-sessions/parse-sessions.service.ts:132-169 | Only given columns are overwritten, only before the session is settled, and PARSING becomes READY only on request |
| Confirm.ParseSessions.Abandon | src/api-gateway/src/parse-sessions/parse-sessions.service.ts:213-245 | Anything but a confirmed session becomes ABANDONED |
| Confirm.ParseSessions.Transact | src/api-gateway/src/parse-sessions/materialize.service.ts:104-156 | A bid and a confirmed session bound to it together, or neither |
| Confirm.ParseSessions.ConfirmAndStart | src/api-gateway/src/parse-sessions/materialize.service.ts:76-156 | With any other calls between the read and the transaction, the outcome is the transaction's on the tables those calls leave; on success the session is confirmed by exactly this bid, built from the content read first, in the user's name; a session that is not READY or has expired at the read changes nothing and is answered with conflict or not found |
| ObjectStore.NothingLost | src/api-gateway/src/object-store/object-store.service.ts:203-218 | At every step of a move each object is under its old or its new key, with its content |
| ObjectStore.EmptiedIsMoved | src/api-gateway/src/object-store/object-store.service.ts:192-220 | A move under way that has emptied the old prefix is the completed move |
| ObjectStore.UnderwayTrans | src/api-gateway/src/object-store/object-store.service.ts:186-220 | Interrupted moves compose: a retry that starts half-way is still half-way into the first one |
| ObjectStore.RetryCompletes | src/api-gateway/src/object-store/object-store.service.ts:186-220 | Completing an interrupted move gives exactly what an uninterrupted one would have |
| ObjectStore.MovedIsUnderway | src/api-gateway/src/object-store/object-store.service.ts:192-220 | A completed move empties the old prefix, loses nothing and touches no other key |
| ObjectStore.CopyStep | src/api-gateway/src/object-store/object-store.service.ts:205-218 | Copying one key, and then deleting it, each keep the move on its way |
| ObjectStore.ObjectStoreService.ListKeys | src/api-gateway/src/object-store/object-store.service.ts:276-296 | However the listing is paged, it yields every key under the prefix once |
| ObjectStore.ObjectStoreService.RenamePrefix | src/api-gateway/src/object-store/object-store.service.ts:192-220 | For disjoint prefixes: it completes exactly if the store answers a copy and a delete for every key; wherever a request fails nothing is lost; a call that completes has renamed every key and counts them |
| ObjectStore.ObjectStoreService.RenameWithRetries | src/api-gateway/src/object-store/object-store.service.ts:186-220 | Any number of interrupted attempts followed by a complete one is one move, and an attempt with enough answers for every key completes it |
| ObjectStore.ObjectStoreService.DeletePrefix | src/api-gateway/src/object-store/object-store.service.ts:226-246 | Keys outside the prefix are untouched wherever a batch fails; it completes exactly if the store answers one request for every 1000 keys; a call that completes has removed every key under the prefix but those the store refused to delete, and counts the refused ones as deleted |
| LinkGraph.WithoutProjects | src/ai-service/ingestion/graph_store.py:48-58 | Dropping a note's edges empties its own projection and filters it out of every target's, leaving the order |
| LinkGraph.KnowledgeGraph.RemoveOutgoing | src/ai-service/ingestion/graph_store.py:48-58 | The three representations agree again after a note's edges are dropped, with no empty entry left |
| LinkGraph.KnowledgeGraph.UpsertNote | src/ai-service/ingestion/graph_store.py:38-46 | Both indexes are the in-order projections of the edge list, which has lost the note's old edges and gained the new ones at its end |
| LinkGraph.KnowledgeGraph.Neighbors | src/ai-service/ingestion/graph_store.py:64-66 | The index answers what a scan of the edges would, in order |
| LinkGraph.KnowledgeGraph.Outgoing | src/ai-service/ingestion/graph_store.py:68-70 | The index answers what a scan of the edges would, in order |
| LinkGraph.EdgesAreCurrent | src/ai-service/ingestion/graph_store.py:38-58 | After any run of upserts the edges are those of each note's latest upsert, in upsert order |
| LinkGraph.NeighborsScanLatest | src/ai-service/ingestion/graph_store.py:64-66 | After any run, `neighbors` finds exactly the notes whose latest version links to the target |
| LinkGraph.RepeatIff | src/ai-service/ingestion/graph_store.py:38-58 | Repeating an upsert changes nothing if and only if all its edges come from its own note |
| Chunking.Window | src/ai-service/rag/indexer.py:77-89 | The loop computes the specified chunks, for every window size and overlap, negative ones included |
| Chunking.ChunksFit | src/ai-service/rag/indexer.py:77-89 | Every chunk is a nonempty piece of the text at most `max` long |
| Chunking.WindowRebuilds | src/ai-service/rag/indexer.py:77-89 | With an overlap below the window, the first chunk and the later chunks without their first `overlap` characters are the text |
| Chunking.WindowHolds | src/ai-service/rag/indexer.py:77-89 | Every piece of up to `overlap` + 1 characters lies whole inside some chunk |
| Chunking.CoverageIff | src/ai-service/rag/indexer.py:81-88 | A text longer than the window is covered without gaps if and only if the overlap is not negative |
| Chunking.FindBreak | src/ai-service/parsers/atom_extractor.py:207 | The last paragraph break in the range, or none if there is none |
| Chunking.StripSqueezes | src/ai-service/parsers/atom_extractor.py:210-212 | Stripping removes only whitespace and leaves nothing exactly when the piece is blank |
| Chunking.SplitChunks | src/ai-service/parsers/atom_extractor.py:197-214 | For every text and limit of at least one: the loop ends, every chunk is nonblank and at most `limit` long, and nothing but whitespace is dropped; a long text is cut into consecutive pieces, each ending with the text, or at the last paragraph break in the second half of its window, or, without one, with the window, and the chunks are these pieces stripped |
| Chunking.StripIsInside | src/ai-service/parsers/atom_extractor.py:210-212 | Stripping cuts whitespace off both ends and leaves what is between as it is |
| Indexing.OnlyApprovedReachProd | src/ai-service/rag/indexer.py:131-155 | Under `auto`, prod receives exactly the atoms with every required field of the right kind, type and priority among the listed ones, that are approved and active, and staging all else |
| Indexing.OtherModesIgnorePayload | src/ai-service/rag/indexer.py:131-147 | Under `staging`, `prod` and `legacy` every point goes to that one collection, whatever it carries |
| Indexing.AtomWithoutIdIsStaged | src/ai-service/rag/payload_schema.py:95-110 | An approved atom whose payload lost its id stays in staging |
| Indexing.VectorStore.IndexPoints | src/ai-service/rag/indexer.py:190-225 | Whatever was upserted before: for every collection, what this call's upserts carry, in order, is what was routed there; every upsert has 1 to 64 points and only the last one of a collection fewer than 64; the total is the number of chunks |
| Conversation.AskRunBounded | src/ai-service/tools/llm/litellm_adapter.py:113-143 | At most twice the attempt limit of provider calls a request; a call follows only a transient failure or, once, an answer that did not validate; each call is the request or its correction |
| Conversation.TransientFailuresRepeat | src/ai-service/tools/llm/retry.py:40-44 | A rate limit, a timeout and a provider failure are tried again up to the attempt limit; every other error, and every answer, ends the loop at once |
| Conversation.HeadTailKeeps | src/ai-service/tools/llm/conversation.py:297-319 | Compaction keeps the system prompt and the last n messages, drops the rest and is idempotent |
| Conversation.Adapter.WithRetry | src/ai-service/tools/llm/retry.py:47-93 | One request, repeated only after transient failures and at most the attempt limit; the last outcome is returned |
| Conversation.Adapter.Generate | src/ai-service/tools/llm/litellm_adapter.py:94-143 | A schema request returns only a validated answer; a failure is the last call's, or a validation error after two answers |
| Conversation.LLMConversation.Send | src/ai-service/tools/llm/conversation.py:124-167 | Every provider call is the whole transcript with the new message, or once its correction, within the attempt limits; an answered turn is recorded whole, a failed one leaves messages and turns unchanged |
| Conversation.LLMConversation.CompactHeadTail | src/ai-service/tools/llm/conversation.py:297-319 | The history becomes the specified compaction and the turn log is untouched |

## Left out

- Chunking.SplitChunks: asks for a limit of at least 1; with a limit of 0 the loop advances only over paragraph breaks and does not end on other text.
- Chunking.CoverageIff: asks for a positive window, the only kind the indexer passes; with a window of 0 or less there is no chunk that reaches the end of the text.
- Codec.ParseEntry: JSON texts that are not arrays of strings (numbers, nested values, lone surrogates, invalid text) are decided by a parameter, since turning numbers into texts is JavaScript's own.
- Codec.CostRoundTrip: exact arithmetic; the rounding of doubles and the overflow of a very large number to infinity are not modelled.
- ObjectStore.ObjectStoreService.RenamePrefix: disjoint prefixes only, as both callers use it; the stub mode, where every call is a no-op, is not modelled.
- Confirm.RunKeepsIff: each service method is one atomic step and transactions are serializable; when load and save are two steps, `Confirm.StaleSaveIff`, `Confirm.StaleSaveMovesIff` and, for the transaction, `Confirm.LateConfirmIff` say what remains.
- Confirm.OneBidPerSession: the same two assumptions; `Confirm.StaleSaveGivesTwoBids` and `Confirm.OverlapGivesTwoBids` are what happens without them.
- Composition.ShowsSecondRunIff: the second run is delivered after the whole of the first; runs delivered interleaved are `Composition.TwoRunsAreProjected`.
- BidWorkflow.Workflow.Await: signals are delivered at awaits only, as the workflow runtime does.
- Human-readable texts: the reason of a loop-back, log lines, the wording of the schema correction, the summary that the `summarize` compaction asks for.
- The derivation of the tenant id from the client name; a bid card carries the derived value.
- The stream reading loop, consumer-group set-up and redelivery of unacknowledged entries: the loop reads only new entries, so nothing is claimed about redelivery.
- Prototype names such as `constructor` as artifact keys, which JavaScript's `in` finds in every object.
- `applyOverrides` of the confirm request and the fields of the created bid beyond the content read from the session.
- The workflow start after a confirm commits, which changes neither table.
- Indexing.OnlyApprovedReachProd: the schema library's reading of values that are not booleans, and the fields of the three roles that never reach prod, are parameters.
- Splitting markdown on headings, stable point ids and frontmatter parsing.
- Graph statistics and persistence, the prompt of the atom extractor and the numbering of atoms.
- Controllers, guards, the WebSocket gateway, the frontend and deployment.
