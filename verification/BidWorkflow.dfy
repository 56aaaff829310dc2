/**
 The durable bid workflow: one object whose fields are the workflow's fields, one method per
 handler. Activities are nondeterministic; signals may arrive at every `await`, and `Inv` is
 what any query made at an `await` observes.
 */
module BidWorkflow {
  import opened Prelude
  import opened WorkflowModel

  datatype WorkflowInput = WorkflowInput(intake: bool, prebuiltCard: Option<BidCard>)

  /** The human gate: still open, timed out, or decided by a signal. */
  datatype Gate = Undecided | Expired | Ruled(signal: TriageSignal)

  /** The gate lets the bid through. */
  predicate Lets(g: Gate) {
    g.Ruled? && g.signal.approved
  }

  /** The profile of a bid let through: the reviewer's choice, or else the card's estimate. */
  ghost predicate Settled(profile: Option<Profile>, card: Option<BidCard>, g: Gate) {
    && g.Ruled? && card.Some?
    && profile == if g.signal.profileOverride.Some? then g.signal.profileOverride else Some(card.value.estimatedProfile)
  }

  /** If the last round timed out, the timer of the reviewer it was waiting for did fire. */
  ghost predicate LateRound(rounds: seq<Round>, timer: nat -> bool) {
    rounds != [] && rounds[|rounds| - 1].outcome == TimedOut ==> timer(|rounds[|rounds| - 1].taken|)
  }

  lemma NoRoundIsLate(timer: nat -> bool)
    ensures LateRound([], timer)
  {
  }

  /** The timers of the gate, by round and reviewer. */
  type Timers = (nat, nat) -> bool

  function OfRound(timers: Timers, round: nat): nat -> bool {
    (reviewer: nat) => timers(round, reviewer)
  }

  class Workflow {
    const workflowId: string
    var state: WorkflowState
    var transitionSeq: nat
    var prevState: Option<Phase>
    var bidCard: Option<BidCard>
    var triaged: bool
    var profile: Option<Profile>
    var signal: Option<TriageSignal>
    /** The nine artifact attributes; an absent slot is an attribute that is None. */
    var slots: map<Slot, Artifact>
    var reviews: seq<ReviewRecord>
    var submission: Option<Submission>
    var retrospective: Option<Retrospective>
    var reviewSignals: seq<ReviewSignal>
    var reviewConsumed: nat
    var reviewRound: nat
    var loopBackHistory: seq<LoopBack>
    /** Identity of the next activity execution that produces an artifact. */
    var nextVersion: nat

    // What has happened so far: the profile's pipeline, the events handed to the transition activity,
    // the finished gate rounds, the records and signals of the round under way, the rank below which
    // slots are filled, and the LLM cost of every artifact ever built.
    ghost var stages: seq<Stage>
    ghost var emitted: seq<Event>
    ghost var rounds: seq<Round>
    ghost var openRecords: seq<ReviewRecord>
    ghost var openTaken: seq<ReviewSignal>
    ghost var frontier: nat
    ghost var spent: int
    /** An activity has failed for good, which ends the run as an uncaught exception. */
    ghost var raised: bool
    /** How the human gate was decided. */
    ghost var gate: Gate

    /** The signal queue, the review log and the loop-back history agree with the rounds. */
    ghost predicate QueueInv()
      reads `reviewSignals, `reviewConsumed, `reviews, `reviewRound, `loopBackHistory, `rounds, `openRecords, `openTaken
    {
      && QueueOk(reviewSignals, reviewConsumed, reviews, rounds, openRecords, openTaken)
      && reviewRound == |rounds| && loopBackHistory == AllLoopBacks(rounds)
    }

    ghost predicate ChainInv()
      reads `emitted, `transitionSeq, `bidCard
    {
      |emitted| == transitionSeq && ChainOk(emitted, bidCard) && OfRun(emitted, workflowId)
    }

    ghost predicate ShelfInv()
      reads `slots, `nextVersion, `bidCard, `profile, `frontier, `stages, `rounds
    {
      && ArtifactsOk(slots, nextVersion, bidCard, profile, frontier)
      && (if profile.Some? then RoundsOk(stages, ReviewerCount(profile.value), rounds) else rounds == [])
    }

    /** The slots filled are those before the current stage, or through it once its handler has stored its artifact. */
    ghost predicate PlaceInv()
      reads `state, `profile, `frontier, `bidCard, `rounds
    {
      if profile.Some? then bidCard.Some? && PlaceOk(state, profile.value, frontier, rounds) else state != Blocked
    }

    /** Whatever has been submitted was approved: the run is past the gate and nothing has changed since. */
    ghost predicate SubmissionInv()
      reads `submission, `openRecords, `bidCard, `profile, `frontier, `rounds, `slots, `reviews
    {
      submission.Some? ==> PastGate() && Submitted()
    }

    /** Holds at every `await`, hence in every state a query or signal can observe. */
    ghost predicate Inv()
      reads this
    {
      QueueInv() && ChainInv() && ShelfInv() && PlaceInv() && SubmissionInv()
    }

    ghost predicate Announced()
      reads `prevState, `emitted
    {
      prevState == if emitted == [] then None else Some(emitted[|emitted| - 1].toState)
    }

    /** Between handlers before the gate, with everything of rank below `rank` built and nothing else. */
    ghost predicate Building(rank: nat)
      reads `openRecords, `bidCard, `profile, `frontier, `rounds, `submission
    {
      && openRecords == [] && bidCard.Some? && profile.Some?
      && frontier == rank && AllRewound(rounds) && submission == None
    }

    /** The package is there and was assembled with every review so far. */
    ghost predicate PackageReady()
      reads `slots, `reviews
    {
      Package in slots && slots[Package].reviewsSeen == |reviews|
    }

    /** Past the gate, approved, with nothing changed on the shelf since. */
    ghost predicate PastGate()
      reads `openRecords, `bidCard, `profile, `frontier, `rounds, `slots
    {
      && openRecords == [] && bidCard.Some? && profile.Some?
      && frontier == Rank(S9) && ClearedBy(rounds, slots)
    }

    ghost predicate Submitted()
      reads `submission, `slots, `reviews
    {
      SubmittedAs(submission, slots, reviews)
    }

    ghost predicate Reflected()
      reads `retrospective, `submission, `bidCard, `slots, `reviews
    {
      ReflectedAs(retrospective, submission, bidCard, slots, reviews)
    }

    constructor (workflowId: string)
      ensures Inv() && openRecords == [] && Announced() && emitted == [] && rounds == []
      ensures bidCard == None && profile == None && submission == None && spent == 0
      ensures !raised && gate == Undecided
    {
      this.workflowId := workflowId;
      state := At(S0);
      transitionSeq, prevState := 0, None;
      bidCard, triaged, profile, signal := None, false, None, None;
      slots, reviews, submission, retrospective := map[], [], None, None;
      reviewSignals, reviewConsumed, reviewRound, loopBackHistory := [], 0, 0, [];
      nextVersion := 0;
      stages, emitted, rounds, openRecords, openTaken, frontier, spent := [], [], [], [], [], 0, 0;
      raised, gate := false, Undecided;
    }

    // -------------------------------------------------------------- signals and awaits

    method HumanTriageDecision(s: TriageSignal)
      modifies `signal
      ensures signal == Some(s)
    {
      signal := Some(s);
    }

    method HumanReviewDecision(s: ReviewSignal)
      modifies `reviewSignals
      ensures reviewSignals == old(reviewSignals) + [s]
    {
      reviewSignals := reviewSignals + [s];
    }

    /** Suspension point: any number of signals of either kind are delivered. */
    method Await()
      requires Inv()
      modifies `signal, `reviewSignals
      ensures Inv() && old(reviewSignals) <= reviewSignals
      ensures old(signal).Some? ==> signal.Some?
    {
      var n: int := *;
      for i := 0 to if n < 0 then 0 else n
        invariant Inv() && old(reviewSignals) <= reviewSignals
        invariant old(signal).Some? ==> signal.Some?
      {
        if * {
          var s: TriageSignal := *;
          HumanTriageDecision(s);
        } else {
          var s: ReviewSignal := *;
          HumanReviewDecision(s);
        }
      }
    }

    /** An awaited activity; `ok` is false when it raised after its retries, which ends the run. */
    method ExecuteActivity() returns (ok: bool)
      requires Inv()
      requires !raised
      modifies `signal, `reviewSignals, `raised
      ensures Inv() && old(reviewSignals) <= reviewSignals
      ensures old(signal).Some? ==> signal.Some?
      ensures raised == !ok
    {
      Await();
      ok := *;
      raised := !ok;
    }

    /** `wait_condition` on the review queue; a signal already waiting ends it at once. */
    method WaitForReview(expires: bool) returns (arrived: bool)
      requires Inv()
      modifies `signal, `reviewSignals
      ensures Inv() && old(reviewSignals) <= reviewSignals
      ensures arrived == (reviewConsumed < |old(reviewSignals)| || !expires)
      ensures arrived ==> reviewConsumed < |reviewSignals|
      ensures reviewConsumed < |old(reviewSignals)| ==> reviewSignals == old(reviewSignals)
    {
      if reviewConsumed < |reviewSignals| { return true; }
      Await();
      if !expires && reviewConsumed == |reviewSignals| {
        var s: ReviewSignal := *;
        HumanReviewDecision(s);
      }
      arrived := !expires;
    }

    // -------------------------------------------------------------- announcing phases

    /** The increment of `_transition_seq` and the hand-over of the event's payload. */
    method Emit(phase: Phase, cost: Option<int>)
      requires Inv() && Announced() && bidCard.Some?
      modifies `transitionSeq, `emitted
      ensures Inv() && transitionSeq == old(transitionSeq) + 1
      ensures emitted != [] && emitted[..|emitted| - 1] == old(emitted)
      ensures var e := emitted[|emitted| - 1];
              && e.workflowId == workflowId && e.tenantId == bidCard.value.tenantId && e.toState == phase
              && e.cost == cost
              && e.profile == if profile.Some? then profile.value else bidCard.value.estimatedProfile
      ensures Phases(emitted) == old(Phases(emitted)) + [phase]
      ensures CostSum(emitted) == old(CostSum(emitted)) + CostOf(cost)
    {
      var p := if profile.Some? then profile.value else bidCard.value.estimatedProfile;
      var now: string := *;
      var card := bidCard.value;
      var event := Event(card.bidId, workflowId, transitionSeq + 1, card.tenantId,
                         prevState, phase, p, ArtifactKeys(phase), now, cost);
      ChainExtends(emitted, card.bidId, event);
      transitionSeq := transitionSeq + 1;
      emitted := emitted + [event];
    }

    method NotifyStateTransition(phase: Phase, cost: Option<int>)
      requires Inv() && Announced() && bidCard.Some?
      modifies `transitionSeq, `prevState, `emitted, `signal, `reviewSignals
      ensures Inv() && Announced()
      ensures Phases(emitted) == old(Phases(emitted)) + [phase]
      ensures CostSum(emitted) == old(CostSum(emitted)) + CostOf(cost)
      ensures old(signal).Some? ==> signal.Some?
    {
      Emit(phase, cost);
      Await();  // the activity is best-effort: a failure is logged and dropped
      prevState := Some(phase);
    }

    method CompletePhase(phase: Phase, cost: Option<int>)
      requires Inv() && Announced() && bidCard.Some?
      modifies `transitionSeq, `prevState, `emitted, `signal, `reviewSignals
      ensures Inv() && Announced()
      ensures Phases(emitted) == old(Phases(emitted)) + [phase]
      ensures CostSum(emitted) == old(CostSum(emitted)) + CostOf(cost)
      ensures old(signal).Some? ==> signal.Some?
    {
      Await();  // workspace snapshot, best-effort
      NotifyStateTransition(phase, cost);
    }

    // -------------------------------------------------------------- S0, S1 and the human gate

    method RunS0(input: WorkflowInput) returns (ok: bool)
      requires Inv() && bidCard == None && profile == None && emitted == []
      requires !raised
      modifies `state, `bidCard, `signal, `reviewSignals, `raised
      ensures Inv() && (ok ==> bidCard.Some?)
      ensures ok <==> !raised && (input.prebuiltCard.Some? || input.intake)
      ensures input.prebuiltCard.Some? ==> ok && bidCard == input.prebuiltCard
      ensures old(signal).Some? ==> signal.Some?
    {
      state := At(S0);
      if input.prebuiltCard.Some? {
        bidCard := input.prebuiltCard;
        ok := true;
      } else if input.intake {
        ok := ExecuteActivity();
        if ok {
          var card: BidCard := *;
          bidCard := Some(card);
        }
      } else {
        ok := false;
      }
    }

    method RunS1Triage() returns (ok: bool)
      requires Inv() && bidCard.Some? && profile == None
      requires !raised
      modifies `state, `triaged, `signal, `reviewSignals, `raised
      ensures Inv() && state == At(S1) && triaged == ok
      ensures raised == !ok
      ensures old(signal).Some? ==> signal.Some?
    {
      state := At(S1);
      ok := ExecuteActivity();
      triaged := ok;
    }

    /** Fixes the profile, the bid card and with them the pipeline. */
    method SettleProfile(p: Profile)
      requires Inv() && openRecords == [] && bidCard.Some? && profile == None && submission == None && state == At(S1)
      modifies `profile, `bidCard, `stages, `frontier
      ensures Inv() && Building(Rank(S0_5)) && PipelineOf(p, stages) && profile == Some(p)
      ensures bidCard == Some(old(bidCard).value.(estimatedProfile := p))
    {
      hide QueueInv, PipelineOf, ShelfOk;
      EmptyShelf(bidCard.value.(estimatedProfile := p), p);
      profile := Some(p);
      bidCard := Some(bidCard.value.(estimatedProfile := p));
      stages := PipelineFor(p);
      frontier := Rank(S0_5);
    }

    /** `wait_condition` on the triage signal: it ends with a signal, or with the timer if that fires first. */
    method AwaitTriage(expires: bool) returns (timedOut: bool)
      requires Inv()
      modifies `signal, `reviewSignals
      ensures Inv() && timedOut == (old(signal).None? && expires)
      ensures (old(signal).Some? ==> signal == old(signal)) && (!timedOut ==> signal.Some?)
    {
      if signal.Some? { return false; }
      Await();
      if !expires && signal.None? {
        var s: TriageSignal := *;
        HumanTriageDecision(s);
      }
      timedOut := expires;
    }

    /**
     True exactly if the signal that ended the wait approved; `expires` says whether the timer fires before
     any signal. A signal already there ends the wait at once.
     */
    method WaitHumanGate(expires: bool) returns (approved: bool)
      requires Inv() && openRecords == [] && bidCard.Some? && profile == None && submission == None && state == At(S1)
      modifies `state, `profile, `bidCard, `stages, `frontier, `signal, `reviewSignals, `gate
      ensures Inv() && (approved <==> Lets(gate))
      ensures gate == if old(signal).None? && expires then Expired
                      else if signal.Some? then Ruled(signal.value) else Undecided
      ensures gate != Undecided && (old(signal).Some? ==> signal == old(signal))
      ensures approved ==> profile.Some? && Building(Rank(S0_5)) && PipelineOf(profile.value, stages)
      ensures approved ==> state == old(state) && Settled(profile, old(bidCard), gate)
                           && bidCard == Some(old(bidCard).value.(estimatedProfile := profile.value))
      ensures !approved ==> state == NoBid && profile == None && bidCard == old(bidCard)
    {
      hide QueueInv, ChainInv, RoundsOk, PipelineOf, ShelfOk, SubmissionInv;
      var timedOut := AwaitTriage(expires);
      if timedOut {
        gate := Expired;
        state := NoBid;
        return false;
      }
      gate := Ruled(signal.value);
      if !signal.value.approved {
        state := NoBid;
        return false;
      }
      SettleProfile(if signal.value.profileOverride.Some? then signal.value.profileOverride.value
                    else bidCard.value.estimatedProfile);
      approved := true;
    }

    // -------------------------------------------------------------- S0.5 to S8

    /** Stores a finished artifact in its attribute. */
    method Store(s: Slot, a: Artifact)
      requires Inv() && Building(Rank(Home(s))) && Has(profile.value, Home(s)) && Home(s) != S3 && state == At(Home(s))
      requires a.version == nextVersion && a.card == bidCard.value && a.sources == SourcesOf(slots, s)
      modifies `slots, `nextVersion, `frontier, `spent
      ensures Inv() && Building(Rank(Home(s)) + 1)
      ensures slots == old(slots)[s := a]
      ensures spent == match a.cost case None => old(spent) case Some(c) => old(spent) + c
    {
      hide QueueInv, ChainInv, RoundsOk, SourcesOf;
      ShelfStores(slots, nextVersion, bidCard.value, profile.value, s, a);
      slots := slots[s := a];
      nextVersion := nextVersion + 1;
      frontier := Rank(Home(s)) + 1;
      spent := spent + CostOf(a.cost);
    }

    method RunS0_5ContextSynthesis() returns (ok: bool)
      requires Inv() && Building(Rank(S0_5))
      modifies `state, `frontier, `signal, `reviewSignals
      ensures Inv() && ok && Building(Rank(S0_5) + 1) && state == At(S0_5)
    {
      hide QueueInv, ChainInv, RoundsOk, ShelfOk;
      state := At(S0_5);
      if !bidCard.value.hasContext && bidCard.value.hasParseSession {
        Await();  // a failed materialisation is logged and dropped
      }
      ShelfPassesS0_5(slots, bidCard.value, profile.value);
      frontier := frontier + 1;
      ok := true;
    }

    method RunS2Scoping() returns (ok: bool)
      requires Inv() && Building(Rank(S2)) && Has(profile.value, S2)
      requires !raised
      modifies `state, `slots, `nextVersion, `frontier, `spent, `signal, `reviewSignals, `raised
      ensures Inv() && (ok ==> Building(Rank(S2) + 1) && state == Scoped && spent == old(spent))
      ensures if ok then Scoping in slots && slots == old(slots)[Scoping := slots[Scoping]] else slots == old(slots)
      ensures raised == !ok
    {
      hide QueueInv, ChainInv, ShelfInv, Has;
      state := At(S2);
      var sources := map[];
      ok := ExecuteActivity();
      if !ok { return; }
      Store(Scoping, Artifact(nextVersion, None, bidCard.value, sources, 0));
      state := Scoped;
    }

    method StoreStreams(sources: map<Slot, nat>)
      requires Inv() && Building(Rank(S3)) && Has(profile.value, S3) && Scoping in slots
               && sources == StreamInput(slots)
      requires state == At(S3)
      modifies `slots, `nextVersion, `frontier
      ensures Inv() && Building(Rank(S3) + 1)
      ensures OnlyStreamsAdded(old(slots), slots)
    {
      var ba := Artifact(nextVersion, None, bidCard.value, sources, 0);
      var sa := ba.(version := nextVersion + 1);
      var domain := ba.(version := nextVersion + 2);
      ShelfStoresStreams(slots, nextVersion, bidCard.value, profile.value, ba, sa, domain);
      slots := slots[BaDraft := ba][SaDraft := sa][DomainNotes := domain];
      nextVersion := nextVersion + 3;
      frontier := Rank(S3) + 1;
    }

    method RunS3Streams() returns (ok: bool)
      requires Inv() && Building(Rank(S3)) && Has(profile.value, S3)
      requires !raised
      modifies `state, `slots, `nextVersion, `frontier, `spent, `signal, `reviewSignals, `raised
      ensures Inv() && (ok ==> Building(Rank(S3) + 1) && state == At(S3) && spent == old(spent))
      ensures if ok then OnlyStreamsAdded(old(slots), slots) else slots == old(slots)
      ensures raised == !ok
    {
      hide QueueInv, ChainInv, RoundsOk;
      ReadyForStreams(slots, bidCard.value, profile.value);
      assert Scoping in slots;
      state := At(S3);
      var sources := StreamInput(slots);
      ok := ExecuteActivity();
      if !ok { return; }
      StoreStreams(sources);
    }

    method RunS4Convergence() returns (ok: bool)
      requires Inv() && Building(Rank(S4)) && Has(profile.value, S4)
      requires !raised
      modifies `state, `slots, `nextVersion, `frontier, `spent, `signal, `reviewSignals, `raised
      ensures Inv() && (ok ==> Building(Rank(S4) + 1) && state == At(S4) && spent == old(spent))
      ensures if ok then Convergence in slots && slots == old(slots)[Convergence := slots[Convergence]]
              else slots == old(slots)
      ensures raised == !ok
    {
      hide QueueInv, ChainInv, RoundsOk, SourcesOf;
      ReadyForConvergence(slots, bidCard.value, profile.value);
      assert BaDraft in slots && SaDraft in slots && DomainNotes in slots;
      state := At(S4);
      var sources := ConvergenceInput(slots);
      ok := ExecuteActivity();
      if !ok { return; }
      Store(Convergence, Artifact(nextVersion, None, bidCard.value, sources, 0));
    }

    method RunS5SolutionDesign() returns (ok: bool)
      requires Inv() && Building(Rank(S5)) && Has(profile.value, S5)
      requires !raised
      modifies `state, `slots, `nextVersion, `frontier, `spent, `signal, `reviewSignals, `raised
      ensures Inv() && (ok ==> Building(Rank(S5) + 1) && state == At(S5))
      ensures ok ==> spent == old(spent) + CostOf(CostFor(S5, slots, retrospective))
      ensures if ok then Hld in slots && slots == old(slots)[Hld := slots[Hld]] else slots == old(slots)
      ensures raised == !ok
    {
      hide QueueInv, ChainInv, RoundsOk, SourcesOf;
      ReadyForSolutionDesign(slots, bidCard.value, profile.value);
      assert Convergence in slots && SaDraft in slots;
      state := At(S5);
      var sources := SolutionDesignInput(slots);
      ok := ExecuteActivity();
      if !ok { return; }
      var cost: Option<int> := *;
      Store(Hld, Artifact(nextVersion, cost, bidCard.value, sources, 0));
    }

    method RunS6Wbs() returns (ok: bool)
      requires Inv() && Building(Rank(S6)) && Has(profile.value, S6)
      requires !raised
      modifies `state, `slots, `nextVersion, `frontier, `spent, `signal, `reviewSignals, `raised
      ensures Inv() && (ok ==> Building(Rank(S6) + 1) && state == At(S6))
      ensures ok ==> spent == old(spent) + CostOf(CostFor(S6, slots, retrospective))
      ensures if ok then Wbs in slots && slots == old(slots)[Wbs := slots[Wbs]] else slots == old(slots)
      ensures raised == !ok
    {
      hide QueueInv, ChainInv, RoundsOk, SourcesOf;
      ReadyForWbs(slots, bidCard.value, profile.value);
      assert BaDraft in slots;
      state := At(S6);
      var sources := WbsInput(slots);
      ok := ExecuteActivity();
      if !ok { return; }
      var cost: Option<int> := *;
      Store(Wbs, Artifact(nextVersion, cost, bidCard.value, sources, 0));
    }

    method RunS7Commercial() returns (ok: bool)
      requires Inv() && Building(Rank(S7)) && Has(profile.value, S7)
      requires !raised
      modifies `state, `slots, `nextVersion, `frontier, `spent, `signal, `reviewSignals, `raised
      ensures Inv() && (ok ==> Building(Rank(S7) + 1) && state == At(S7))
      ensures ok ==> spent == old(spent) + CostOf(CostFor(S7, slots, retrospective))
      ensures if ok then Pricing in slots && slots == old(slots)[Pricing := slots[Pricing]] else slots == old(slots)
      ensures raised == !ok
    {
      hide QueueInv, ChainInv, RoundsOk, SourcesOf;
      ReadyForCommercial(slots, bidCard.value, profile.value);
      assert Wbs in slots;
      state := At(S7);
      var sources := CommercialInput(slots);
      ok := ExecuteActivity();
      if !ok { return; }
      var cost: Option<int> := *;
      Store(Pricing, Artifact(nextVersion, cost, bidCard.value, sources, 0));
    }

    method RunS8Assembly() returns (ok: bool)
      requires Inv() && Building(Rank(S8)) && Has(profile.value, S8)
      requires !raised
      modifies `state, `slots, `nextVersion, `frontier, `spent, `signal, `reviewSignals, `raised
      ensures Inv() && (ok ==> Building(Rank(S9)) && PackageReady() && state == At(S8) && spent == old(spent))
      ensures if ok then Package in slots && slots == old(slots)[Package := slots[Package]] else slots == old(slots)
      ensures raised == !ok
    {
      hide QueueInv, ChainInv, SourcesOf, AssemblyInput, RoundsOk, Has;
      ReadyForAssembly(slots, bidCard.value, profile.value);
      assert BaDraft in slots && SaDraft in slots && DomainNotes in slots && Wbs in slots;
      state := At(S8);
      var sources := AssemblyInput(slots);
      var reviewsSeen := |reviews|;
      ok := ExecuteActivity();
      if !ok { return; }
      Store(Package, Artifact(nextVersion, None, bidCard.value, sources, reviewsSeen));
    }

    // -------------------------------------------------------------- S9: the review gate

    /** One reviewer's signal leaves the queue and enters the review log. */
    method TakeSignal() returns (record: ReviewRecord)
      requires Inv() && openRecords != [] && reviewConsumed < |reviewSignals|
      modifies `reviewConsumed, `reviews, `openRecords, `openTaken
      ensures Inv() && openTaken == old(openTaken) + [reviewSignals[old(reviewConsumed)]]
      ensures var s := reviewSignals[old(reviewConsumed)];
              record.reviewer == s.reviewer && record.verdict == s.verdict && record.comments == s.comments
      ensures openRecords == old(openRecords) + [record] && record == ToRecord(reviewSignals[old(reviewConsumed)])
    {
      QueueTakes(reviewSignals, reviewConsumed, reviews, rounds, openRecords, openTaken);
      var s := reviewSignals[reviewConsumed];
      reviewConsumed := reviewConsumed + 1;
      record := ToRecord(s);
      reviews := reviews + [record];
      openRecords, openTaken := openRecords + [record], openTaken + [s];
    }

    /** Asks the reviewers in turn; stops at the first timeout or verdict other than an approval. */
    method CollectVerdicts(reviewerCount: nat, timer: nat -> bool) returns (timedOut: bool, last: Option<ReviewRecord>)
      requires Inv() && |openRecords| == 1 && openTaken == [] && reviewerCount > 0
      modifies `reviewConsumed, `reviews, `openRecords, `openTaken, `signal, `reviewSignals
      ensures Inv() && openRecords != [] && openRecords[0] == old(openRecords)[0]
      ensures Heard(reviewerCount, openTaken, timedOut, last)
      ensures old(reviewSignals) <= reviewSignals && (timedOut ==> |old(reviewSignals)| <= reviewConsumed)
      ensures timedOut ==> timer(|openTaken|)
    {
      hide Inv;
      last := None;
      for reviewer := 0 to reviewerCount
        invariant Inv() && openRecords != [] && openRecords[0] == old(openRecords)[0]
        invariant old(reviewSignals) <= reviewSignals
        invariant |openTaken| == reviewer && AllApproved(openTaken)
        invariant reviewer > 0 ==> last == Some(ToRecord(openTaken[reviewer - 1]))
      {
        Await();  // approval_needed notification, best-effort
        var arrived := WaitForReview(timer(reviewer));
        if !arrived { return true, last; }
        ghost var before := openTaken;
        var record := TakeSignal();
        last := Some(record);
        assert openTaken[..|openTaken| - 1] == before;
        if record.verdict != APPROVED { return false, last; }
      }
      timedOut := false;
    }

    /** Picks the loop-back target and resets every attribute downstream of it. */
    method RouteOnChangesRequested(record: ReviewRecord, roundIdx: nat) returns (target: Option<Stage>)
      requires bidCard.Some? && profile.Some? && PipelineOf(profile.value, stages)
      requires ArtifactsOk(slots, nextVersion, bidCard, profile, Rank(S9))
      modifies `slots, `loopBackHistory, `frontier
      ensures target == Route(stages, record.comments)
      ensures target == None
              ==> slots == old(slots) && loopBackHistory == old(loopBackHistory) && frontier == old(frontier)
      ensures target.Some? ==> IsLoopTarget(target.value) && target.value in stages && frontier == Rank(target.value)
                               && ArtifactsOk(slots, nextVersion, bidCard, profile, frontier)
                               && slots == old(slots) - Elements(Cleanup(target.value))
                               && loopBackHistory == old(loopBackHistory) + [LoopBack(roundIdx, target.value)]
    {
      var pipeline := PipelineFor(profile.value);
      SamePipeline(profile.value, pipeline, stages);
      var named := NamedTargets(record.comments);
      var chosen: Stage := if named != [] then Earliest(named) else S8;
      if chosen !in pipeline {
        var forward := ForwardCandidates(pipeline, LoopRank(chosen));
        if forward == [] { return None; }
        chosen := forward[0];
      }
      RouteIsEarliestAvailable(stages, record.comments);
      ClearDownstream(chosen);
      loopBackHistory := loopBackHistory + [LoopBack(roundIdx, chosen)];
      target := Some(chosen);
    }

    /** The loop of `setattr(self, attr, None)` over the clean-up table. */
    method ClearDownstream(target: LoopTarget)
      requires bidCard.Some? && profile.Some?
      requires ArtifactsOk(slots, nextVersion, bidCard, profile, Rank(S9))
      modifies `slots, `frontier
      ensures slots == old(slots) - Elements(Cleanup(target))
      ensures frontier == Rank(target) && ArtifactsOk(slots, nextVersion, bidCard, profile, frontier)
    {
      var attrs := Cleanup(target);
      for i := 0 to |attrs|
        invariant slots == old(slots) - Elements(attrs[..i])
      {
        slots := slots - {attrs[i]};
        assert Elements(attrs[..i + 1]) == Elements(attrs[..i]) + {attrs[i]};
      }
      assert attrs[..|attrs|] == attrs;
      CleanupKeepsFresh(old(slots), bidCard.value, profile.value, Rank(S9), target);
      frontier := Rank(target);
    }

    /** A round under way after `pre` with the signals `taken`; every earlier one sent the bid back. */
    ghost predicate RoundOpen(pre: ReviewRecord, taken: seq<ReviewSignal>)
      reads `reviewSignals, `reviewConsumed, `reviews, `rounds, `openRecords, `reviewRound, `emitted, `transitionSeq,
            `bidCard, `profile, `stages
    {
      && profile.Some? && QueueOk(reviewSignals, reviewConsumed, reviews, rounds, openRecords, taken)
      && openRecords != [] && openRecords[0] == pre && reviewRound == |rounds| + 1
      && ChainInv() && RoundsOk(stages, ReviewerCount(profile.value), rounds) && AllRewound(rounds)
    }

    /** Everything but the round just finished is already recorded. */
    ghost predicate Closing(r: Round)
      reads this
    {
      && bidCard.Some? && profile.Some? && submission == None && RoundOpen(r.preReview, r.taken)
      && loopBackHistory == AllLoopBacks(rounds + [r])
      && ArtifactsOk(slots, nextVersion, bidCard, profile, frontier)
      && PlaceOk(state, profile.value, frontier, rounds + [r])
      && RoundOk(stages, ReviewerCount(profile.value), |rounds| + 1, r) && r.seenReviews == |AllReviews(rounds)|
    }

    ghost method CloseRound(r: Round)
      requires Closing(r)
      modifies `rounds, `openRecords, `openTaken
      ensures Inv() && openRecords == [] && rounds == old(rounds) + [r]
      ensures r.outcome.Rewound? ==> AllRewound(rounds)
    {
      hide AllLoopBacks, Rewinds, ArtifactsOk, ChainInv, RoundsOk, RoundOk, PlaceOk, PipelineOf;
      QueueCloses(reviewSignals, reviewConsumed, reviews, rounds, openRecords, r);
      RoundsExtend(stages, ReviewerCount(profile.value), rounds, r);
      rounds, openRecords, openTaken := rounds + [r], [], [];
    }

    /** Where the finished round `r` leaves the workflow. */
    ghost predicate GateExit(r: Round)
      reads `state, `openRecords, `bidCard, `profile, `frontier, `rounds, `submission, `slots, `stages
    {
      && openRecords == [] && submission == None && rounds != [] && rounds[|rounds| - 1] == r
      && match r.outcome
         case Passed => PastGate() && state == At(S9)
         case Rewound(t) => Building(Rank(t)) && IsLoopTarget(t) && t in stages && state == At(t)
         case Capped(t) => state == Blocked && frontier == Rank(t)
         case _ => state == Blocked && frontier == Rank(S9)
    }

    /** The reviewers of one round have been heard; the round is still open. */
    ghost predicate Collected(package: nat, seen: nat, pre: ReviewRecord)
      reads this
    {
      && bidCard.Some? && profile.Some? && PipelineOf(profile.value, stages) && submission == None
      && RoundOpen(pre, openTaken) && reviewRound == |rounds| + 1 && loopBackHistory == AllLoopBacks(rounds)
      && frontier == Rank(S9) && ArtifactsOk(slots, nextVersion, bidCard, profile, frontier)
      && Package in slots && slots[Package].version == package && seen == |AllReviews(rounds)| && AllRewound(rounds)
    }

    /** Ends a round that does not send the bid back. */
    method Conclude(ghost package: nat, ghost seen: nat, ghost pre: ReviewRecord, ghost outcome: Outcome)
      returns (ghost r: Round)
      requires Collected(package, seen, pre) && !outcome.Capped? && !outcome.Rewound?
      requires RoundOk(stages, ReviewerCount(profile.value), |rounds| + 1,
                       Round(package, seen, pre, openTaken, outcome))
      requires state == if outcome == Passed then At(S9) else Blocked
      modifies `rounds, `openRecords, `openTaken
      ensures Inv() && rounds == old(rounds) + [r] && GateExit(r)
      ensures r == Round(package, seen, pre, old(openTaken), outcome)
    {
      hide RoundOpen, ArtifactsOk, PipelineOf, RoundOk, Inv, AllReviews, AllLoopBacks, Rewinds, AllRewound;
      r := Round(package, seen, pre, openTaken, outcome);
      LoopBacksSnoc(rounds, r);
      PlaceAtGate(profile.value, rounds, r);
      CloseRound(r);
    }

    /** Changes were requested: rewind to the target, or block when there is none or the cap is reached. */
    method SendBack(last: ReviewRecord, roundIdx: nat, ghost package: nat, ghost seen: nat, ghost pre: ReviewRecord)
      returns (ghost r: Round)
      requires Collected(package, seen, pre) && roundIdx == reviewRound
      requires Heard(ReviewerCount(profile.value), openTaken, false, Some(last)) && last.verdict == CHANGES_REQUESTED
      modifies `state, `slots, `frontier, `loopBackHistory, `rounds, `openRecords, `openTaken
      ensures Inv() && rounds == old(rounds) + [r] && GateExit(r)
      ensures r.package == package && r.seenReviews == seen && r.preReview == pre && r.taken == old(openTaken)
      ensures r.outcome.Unroutable? || r.outcome.Capped? || r.outcome.Rewound?
      ensures slots == old(slots) - Cleared(r)
    {
      hide RoundOpen, ArtifactsOk, PipelineOf, Heard, RoundOk, Inv, AllReviews, AllLoopBacks, Rewinds, Route,
           AllRewound, PlaceOk;
      HeardChanges(stages, ReviewerCount(profile.value), |rounds| + 1, package, seen, pre, openTaken, last);
      var target := RouteOnChangesRequested(last, roundIdx);
      if target.None? {
        state := Blocked;
        r := Conclude(package, seen, pre, Unroutable);
      } else {
        state := if roundIdx >= MAX_REVIEW_ROUNDS then Blocked else At(target.value);
        r := Round(package, seen, pre, openTaken, BackOutcome(roundIdx, target));
        PlaceAtTarget(profile.value, target.value, rounds, r);
        LoopBacksSnoc(rounds, r);
        CloseRound(r);
      }
    }

    /** The verdict of the round: timeout, rejection, loop-back or approval. */
    method DecideRound(timedOut: bool, last: Option<ReviewRecord>, roundIdx: nat,
                       ghost package: nat, ghost seen: nat, ghost pre: ReviewRecord) returns (ghost r: Round)
      requires Collected(package, seen, pre) && state == At(S9) && roundIdx == reviewRound
      requires Heard(ReviewerCount(profile.value), openTaken, timedOut, last)
      modifies `state, `slots, `frontier, `loopBackHistory, `rounds, `openRecords, `openTaken
      ensures Inv() && rounds == old(rounds) + [r] && GateExit(r)
      ensures r.package == package && r.seenReviews == seen && r.preReview == pre && r.taken == old(openTaken)
      ensures r.outcome == TimedOut <==> timedOut
      ensures slots == old(slots) - Cleared(r)
    {
      hide RoundOpen, ArtifactsOk, PipelineOf, RoundOk, Inv, AllReviews, AllLoopBacks, Rewinds, AllRewound;
      if timedOut || last.value.verdict != CHANGES_REQUESTED {
        HeardOtherwise(stages, ReviewerCount(profile.value), |rounds| + 1, package, seen, pre, openTaken, timedOut,
                       last);
      }
      if timedOut {
        state := Blocked;
        r := Conclude(package, seen, pre, TimedOut);
      } else if last.value.verdict == REJECTED {
        state := Blocked;
        r := Conclude(package, seen, pre, Refused);
      } else if last.value.verdict == CHANGES_REQUESTED {
        r := SendBack(last.value, roundIdx, package, seen, pre);
      } else {
        r := Conclude(package, seen, pre, Passed);
      }
    }

    /** The pre-human AI review, whose record opens the round. */
    method OpenRound() returns (ok: bool, ghost pre: ReviewRecord)
      requires Inv() && openRecords == [] && submission == None
      requires !raised
      modifies `reviews, `openRecords, `signal, `reviewSignals, `raised
      ensures Inv() && openTaken == [] && (if ok then openRecords == [pre] else openRecords == [])
      ensures old(reviewSignals) <= reviewSignals
      ensures raised == !ok
    {
      ok := ExecuteActivity();
      pre := ReviewRecord("", APPROVED, []);
      if !ok { return; }
      var verdict: Verdict := *;
      var record := ReviewRecord("phase-2.4-pre-human", verdict, []);
      reviews := reviews + [record];
      openRecords, pre := [record], record;
    }

    lemma ReviewsSoFar()
      requires Inv() && openRecords == []
      ensures reviews == AllReviews(rounds)
    {
      hide ChainInv, ShelfInv, PlaceInv, SubmissionInv, AllReviews;
      AllReviewsAre(rounds, reviews);
    }

    /** The reviewers of the round have been heard: `_review_round` takes its number. */
    method CountRound(ghost package: nat, ghost seen: nat, ghost pre: ReviewRecord)
      requires Inv() && bidCard.Some? && profile.Some? && submission == None && PipelineOf(profile.value, stages)
      requires frontier == Rank(S9) && AllRewound(rounds) && openRecords != [] && openRecords[0] == pre
      requires Package in slots && slots[Package].version == package && seen == |AllReviews(rounds)|
      modifies `reviewRound
      ensures Collected(package, seen, pre)
    {
      hide QueueOk, ChainOk, ArtifactsOk, RoundsOk, PlaceInv, SubmissionInv, PipelineOf, AllReviews, AllLoopBacks;
      reviewRound := reviewRound + 1;
    }

    /** The first half of the gate: pre-human review, then the reviewers in turn. */
    method HearReviewers(timer: nat -> bool)
      returns (ok: bool, timedOut: bool, last: Option<ReviewRecord>, ghost pre: ReviewRecord)
      requires Inv() && Building(Rank(S9)) && PackageReady() && PipelineOf(profile.value, stages)
      requires !raised
      modifies `reviews, `reviewConsumed, `reviewRound, `openRecords, `openTaken, `signal, `reviewSignals, `raised
      ensures !ok ==> Inv() && openRecords == []
      ensures ok ==> Collected(slots[Package].version, slots[Package].reviewsSeen, pre)
      ensures ok ==> Heard(ReviewerCount(profile.value), openTaken, timedOut, last)
      ensures ok && timedOut ==> |old(reviewSignals)| <= reviewConsumed && timer(|openTaken|)
      ensures raised == !ok
    {
      hide Inv, Collected, PipelineOf, Heard, AllReviews, AllRewound;
      ReviewsSoFar();
      ghost var package, seen := slots[Package].version, slots[Package].reviewsSeen;
      timedOut, last := false, None;
      ok, pre := OpenRound();
      if !ok { return; }
      timedOut, last := CollectVerdicts(ReviewerCount(profile.value), timer);
      CountRound(package, seen, pre);
    }

    method RunS9ReviewGate(timer: nat -> bool) returns (ok: bool, ghost r: Round)
      requires Inv() && Building(Rank(S9)) && PackageReady() && PipelineOf(profile.value, stages)
      requires !raised
      modifies `state, `slots, `frontier, `reviews, `reviewConsumed, `reviewRound, `loopBackHistory, `rounds,
               `openRecords, `openTaken, `signal, `reviewSignals, `raised
      ensures Inv()
      ensures if ok then rounds == old(rounds) + [r] && GateExit(r) else rounds == old(rounds)
      ensures ok ==> r.package == old(slots)[Package].version && r.seenReviews == |old(reviews)|
      ensures slots == if ok then old(slots) - Cleared(r) else old(slots)
      ensures ok && r.outcome == TimedOut ==> |old(reviewSignals)| <= reviewConsumed && timer(|r.taken|)
      ensures raised == !ok
    {
      hide QueueInv, ChainInv, ArtifactsOk, RoundsOk, RoundOpen, PipelineOf, Heard, AllReviews, AllLoopBacks,
           AllRewound;
      assert Package in slots;
      state := At(S9);
      ghost var pre;
      var timedOut, last;
      ok, timedOut, last, pre := HearReviewers(timer);
      r := Round(0, 0, pre, [], TimedOut);
      if !ok { return; }
      r := DecideRound(timedOut, last, reviewRound, slots[Package].version, slots[Package].reviewsSeen, pre);
    }

    // -------------------------------------------------------------- S10 and S11

    /** The submission record, with the checklist item that reads the newest review. */
    method StoreSubmission(package: nat, given: seq<ReviewRecord>)
      requires Inv() && PastGate() && package == slots[Package].version && given == reviews
      modifies `submission
      ensures Inv() && PastGate() && Submitted()
    {
      submission := Some(Submission(package, given, Approves(given)));
    }

    method RunS10Submission() returns (ok: bool)
      requires Inv() && PastGate() && submission == None
      requires !raised
      modifies `state, `submission, `signal, `reviewSignals, `raised
      ensures Inv() && (ok ==> PastGate() && Submitted() && state == At(S10))
      ensures raised == !ok
    {
      assert Package in slots;
      state := At(S10);
      var package, given := slots[Package].version, reviews;
      ok := ExecuteActivity();
      if !ok { return; }
      StoreSubmission(package, given);
    }

    method StoreRetrospective(input: Retrospective)
      requires Inv() && PastGate() && Submitted() && ReflectedAs(Some(input), submission, bidCard, slots, reviews)
      modifies `retrospective, `spent
      ensures Inv() && PastGate() && Submitted() && Reflected() && retrospective == Some(input)
      ensures spent == match input.cost case None => old(spent) case Some(c) => old(spent) + c
    {
      retrospective := Some(input);
      spent := spent + CostOf(input.cost);
    }

    method RunS11Retrospective() returns (ok: bool)
      requires Inv() && PastGate() && Submitted()
      requires !raised
      modifies `state, `retrospective, `spent, `signal, `reviewSignals, `raised
      ensures Inv() && (ok ==> PastGate() && Submitted() && Reflected() && state == At(S11))
      ensures ok ==> retrospective.Some? && spent == old(spent) + CostOf(retrospective.value.cost)
      ensures raised == !ok
    {
      hide QueueInv, ChainInv, ShelfInv, Current, RetrospectiveInput;
      assert submission.Some?;
      state := At(S11);
      var input := Retrospective(submission.value, bidCard.value, RetrospectiveInput(slots), reviews, None);
      RetrospectiveReads(slots);
      ok := ExecuteActivity();
      if !ok { return; }
      var cost: Option<int> := *;
      StoreRetrospective(input.(cost := cost));
    }

    // -------------------------------------------------------------- the run

    /** The dispatch table up to convergence. */
    method RunAnalysisStage(stage: Stage) returns (ok: bool)
      requires Rank(S0_5) <= Rank(stage) <= Rank(S4)
      requires Inv() && Building(Rank(stage)) && Has(profile.value, stage)
      requires !raised
      modifies `state, `slots, `nextVersion, `frontier, `spent, `signal, `reviewSignals, `raised
      ensures Inv()
      ensures ok ==> Building(Rank(stage) + 1) && state == StateAfter(stage) && spent == old(spent)
      ensures raised == !ok
    {
      hide Inv, PackageReady;
      match stage {
        case S0_5 => ok := RunS0_5ContextSynthesis();
        case S2 => ok := RunS2Scoping();
        case S3 => ok := RunS3Streams();
        case S4 => ok := RunS4Convergence();
      }
    }

    /** The dispatch table from solution design to assembly. */
    method RunDesignStage(stage: Stage) returns (ok: bool)
      requires Rank(S5) <= Rank(stage) <= Rank(S8)
      requires Inv() && Building(Rank(stage)) && Has(profile.value, stage)
      requires !raised
      modifies `state, `slots, `nextVersion, `frontier, `spent, `signal, `reviewSignals, `raised
      ensures Inv()
      ensures ok ==> Building(Rank(stage) + 1)
      ensures ok && stage == S8 ==> PackageReady()
      ensures ok ==> state == At(stage) && spent == old(spent) + CostOf(CostFor(stage, slots, retrospective))
      ensures raised == !ok
    {
      hide Inv, PackageReady;
      match stage {
        case S5 => ok := RunS5SolutionDesign();
        case S6 => ok := RunS6Wbs();
        case S7 => ok := RunS7Commercial();
        case S8 => ok := RunS8Assembly();
      }
    }

    // One turn of the main loop: the handler, then the announcement.

    method RunPhaseAnalysis(stage: Stage) returns (ok: bool)
      requires Rank(S0_5) <= Rank(stage) <= Rank(S4)
      requires Inv() && Building(Rank(stage)) && Has(profile.value, stage) && Announced()
      requires !raised
      modifies `state, `slots, `nextVersion, `frontier, `spent, `transitionSeq, `prevState, `emitted, `signal,
               `reviewSignals, `raised
      ensures Inv() && (ok ==> Building(Rank(stage) + 1) && Announced() && state == StateAfter(stage))
      ensures Phases(emitted) == if ok then old(Phases(emitted)) + [Completed(stage)] else old(Phases(emitted))
      ensures ok ==> CostSum(emitted) == old(CostSum(emitted)) && spent == old(spent)
      ensures raised == !ok
    {
      hide QueueInv, ChainInv, ShelfInv, Phases;
      ok := RunAnalysisStage(stage);
      if !ok { return; }
      CompletePhase(Completed(stage), None);
    }

    method RunPhaseDesign(stage: Stage) returns (ok: bool, cost: Option<int>)
      requires Rank(S5) <= Rank(stage) <= Rank(S8)
      requires Inv() && Building(Rank(stage)) && Has(profile.value, stage) && Announced()
      requires !raised
      modifies `state, `slots, `nextVersion, `frontier, `spent, `transitionSeq, `prevState, `emitted, `signal,
               `reviewSignals, `raised
      ensures Inv() && (ok ==> Building(Rank(stage) + 1) && Announced() && state == StateAfter(stage))
      ensures ok && stage == S8 ==> PackageReady()
      ensures Phases(emitted) == if ok then old(Phases(emitted)) + [Completed(stage)] else old(Phases(emitted))
      ensures ok ==> CostSum(emitted) == old(CostSum(emitted)) + CostOf(cost) && spent == old(spent) + CostOf(cost)
      ensures raised == !ok
    {
      hide QueueInv, ChainInv, ShelfInv, PlaceInv, SubmissionInv, Phases, PackageReady;
      cost := None;
      ok := RunDesignStage(stage);
      if !ok { return; }
      cost := CostFor(stage, slots, retrospective);
      CompletePhase(Completed(stage), cost);
    }

    method RunPhaseS10() returns (ok: bool)
      requires Inv() && PastGate() && submission == None && Announced()
      requires !raised
      modifies `state, `submission, `transitionSeq, `prevState, `emitted, `signal, `reviewSignals, `raised
      ensures Inv() && (ok ==> PastGate() && Submitted() && Announced() && state != Blocked)
      ensures Phases(emitted) == if ok then old(Phases(emitted)) + [Completed(S10)] else old(Phases(emitted))
      ensures CostSum(emitted) == old(CostSum(emitted))
      ensures raised == !ok
    {
      hide QueueInv, ChainInv, ShelfInv, Phases;
      ok := RunS10Submission();
      if !ok { return; }
      CompletePhase(Completed(S10), None);
    }

    method RunPhaseS11() returns (ok: bool, cost: Option<int>)
      requires Inv() && PastGate() && Submitted() && Announced()
      requires !raised
      modifies `state, `spent, `retrospective, `transitionSeq, `prevState, `emitted, `signal, `reviewSignals, `raised
      ensures Inv() && (ok ==> PastGate() && Submitted() && Reflected() && Announced() && state != Blocked)
      ensures Phases(emitted) == if ok then old(Phases(emitted)) + [Completed(S11)] else old(Phases(emitted))
      ensures ok ==> CostSum(emitted) == old(CostSum(emitted)) + CostOf(cost) && spent == old(spent) + CostOf(cost)
      ensures raised == !ok
    {
      hide QueueInv, ChainInv, ShelfInv, PlaceInv, SubmissionInv, ClearedBy, Submitted, ReflectedAs, Phases;
      cost := None;
      ok := RunS11Retrospective();
      if !ok { return; }
      cost := CostFor(S11, slots, retrospective);
      CompletePhase(Completed(S11), cost);
    }

    method RunPhaseS9(timer: nat -> bool) returns (ok: bool, ghost r: Round)
      requires Inv() && Building(Rank(S9)) && PackageReady() && PipelineOf(profile.value, stages) && Announced()
      requires !raised
      modifies `state, `slots, `frontier, `reviews, `reviewConsumed, `reviewRound, `loopBackHistory, `rounds,
               `openRecords, `openTaken, `transitionSeq, `prevState, `emitted, `signal, `reviewSignals, `raised
      ensures Inv() && if ok then rounds == old(rounds) + [r] && GateExit(r) && Announced() else rounds == old(rounds)
      ensures Phases(emitted) == if ok then old(Phases(emitted)) + [Completed(S9)] else old(Phases(emitted))
      ensures CostSum(emitted) == old(CostSum(emitted))
      ensures ok ==> LateRound(rounds, timer)
      ensures raised == !ok
    {
      hide QueueInv, ChainInv, ShelfInv, Phases, PackageReady, PipelineOf;
      ok, r := RunS9ReviewGate(timer);
      if !ok { return; }
      CompletePhase(Completed(S9), None);
    }

    /** What holds before the handler of `stage`. */
    ghost predicate StandsBefore(stage: Stage)
      reads `openRecords, `bidCard, `profile, `frontier, `rounds, `submission, `slots, `reviews
    {
      if Rank(stage) <= Rank(S9) then Building(Rank(stage)) && (stage == S9 ==> PackageReady())
      else PastGate() && if stage == S10 then submission == None else Submitted()
    }

    /** Stages the profile skips leave no artifact behind, so the next one can start. */
    ghost method Advance(stage: Stage, next: Stage)
      requires Inv() && Building(Rank(stage) + 1) && Follows(profile.value, stage, next) && Has(profile.value, next)
      requires (stage == S8 ==> PackageReady()) && state == StateAfter(stage)
      modifies `frontier
      ensures Inv() && StandsBefore(next)
    {
      ShelfSkips(slots, bidCard.value, profile.value, frontier, Rank(next));
      frontier := Rank(next);
    }

    /** One turn of the main loop before the gate. */
    method TurnBeforeGate(stage: Stage, ghost next: Stage) returns (ok: bool)
      requires Rank(S0_5) <= Rank(stage) < Rank(S9)
      requires Inv() && StandsBefore(stage) && Announced() && Has(profile.value, stage)
      requires Follows(profile.value, stage, next) && Has(profile.value, next)
      requires !raised
      modifies `state, `slots, `nextVersion, `frontier, `spent, `transitionSeq, `prevState, `emitted, `signal,
               `reviewSignals, `raised
      ensures Inv() && (ok ==> StandsBefore(next) && Announced() && state != Blocked)
      ensures Phases(emitted) == if ok then old(Phases(emitted)) + [Completed(stage)] else old(Phases(emitted))
      ensures ok && old(CostSum(emitted) == spent) ==> CostSum(emitted) == spent
      ensures raised == !ok
    {
      hide QueueInv, ChainInv, ShelfInv, Phases, CostSum, Follows, Has, PackageReady;
      if Rank(stage) <= Rank(S4) {
        ok := RunPhaseAnalysis(stage);
      } else {
        var cost;
        ok, cost := RunPhaseDesign(stage);
      }
      if ok { Advance(stage, next); }
    }

    /** How a run that raised nothing ends: blocked at the gate, or through S11 on an approved submission. */
    ghost predicate Ended(pos: nat)
      reads `state, `rounds, `submission, `stages, `openRecords, `bidCard, `profile, `frontier, `slots, `reviews,
            `retrospective
    {
      if state == Blocked then StoppedBy(rounds) && submission == None && pos == Position(stages, S9) + 1
      else state == Finished && PastGate() && Submitted() && Reflected() && pos == |stages|
    }

    /** What holds at position `idx` of the main loop. */
    ghost predicate LoopHead(idx: nat)
      reads `state, `prevState, `emitted, `openRecords, `bidCard, `profile, `frontier, `rounds, `submission,
            `retrospective, `slots, `reviews, `stages
    {
      && Announced() && openRecords == [] && Itinerary(Phases(emitted), stages, rounds, idx)
      && if state == Blocked then StoppedBy(rounds) && submission == None && idx == Position(stages, S9) + 1
         else if idx < |stages| then StandsBefore(stages[idx])
         else PastGate() && Submitted() && Reflected()
    }

    method TurnBefore(pipeline: seq<Stage>, idx: nat) returns (ok: bool)
      requires Inv() && profile.Some? && PipelineOf(profile.value, pipeline) && pipeline == stages
               && 2 <= idx < |pipeline|
      requires LoopHead(idx) && Rank(pipeline[idx]) < Rank(S9) && state != Blocked && CostSum(emitted) == spent
      requires !raised
      modifies `state, `slots, `nextVersion, `frontier, `spent, `transitionSeq, `prevState, `emitted, `signal,
               `reviewSignals, `raised
      ensures Inv() && if ok then LoopHead(idx + 1) && CostSum(emitted) == spent
                       else Itinerary(Phases(emitted), stages, rounds, idx)
      ensures raised == !ok
    {
      hide QueueInv, ChainInv, ShelfInv, Itinerary, Phases, CostSum, Ordered, Building, PackageReady, Has;
      Successor(profile.value, pipeline, idx);
      ItineraryForward(Phases(emitted), pipeline, rounds, idx);
      RankOrder(pipeline, idx, 2);
      ok := TurnBeforeGate(pipeline[idx], pipeline[idx + 1]);
    }

    method TurnAfter(pipeline: seq<Stage>, idx: nat) returns (ok: bool)
      requires Inv() && profile.Some? && PipelineOf(profile.value, pipeline) && pipeline == stages && idx < |pipeline|
      requires LoopHead(idx) && Rank(pipeline[idx]) >= Rank(S9) && pipeline[idx] != S9 && state != Blocked
               && CostSum(emitted) == spent
      requires !raised
      modifies `state, `spent, `submission, `retrospective, `transitionSeq, `prevState, `emitted, `signal,
               `reviewSignals, `raised
      ensures Inv() && if ok then LoopHead(idx + 1) && CostSum(emitted) == spent
                       else Itinerary(Phases(emitted), stages, rounds, idx)
      ensures raised == !ok
    {
      hide QueueInv, ChainInv, ShelfInv, Itinerary, Phases, PastGate, Submitted, PipelineOf, Announced, Layout, CostSum;
      TailOfPipeline(profile.value, pipeline, idx);
      ItineraryForward(Phases(emitted), pipeline, rounds, idx);
      if pipeline[idx] == S10 {
        ok := RunPhaseS10();
      } else {
        var cost;
        ok, cost := RunPhaseS11();
      }
    }

    lemma LastRoundTaken(before: seq<Round>, r: Round)
      requires Inv() && profile.Some? && PipelineOf(profile.value, stages) && rounds == before + [r]
      ensures !r.outcome.Unroutable?
      ensures r.outcome.Rewound?
              ==> r.outcome.target in stages && IsLoopTarget(r.outcome.target) && |before| + 1 < MAX_REVIEW_ROUNDS
    {
      LastRoundRoutes(stages, ReviewerCount(profile.value), before, r);
    }

    /** The gate's turn: on, stopped, or back to the stage the gate left in `_state`. */
    method TurnAtGate(pipeline: seq<Stage>, idx: nat, timer: nat -> bool) returns (ok: bool, next: nat)
      requires Inv() && profile.Some? && PipelineOf(profile.value, pipeline) && pipeline == stages && idx < |pipeline|
      requires LoopHead(idx) && pipeline[idx] == S9 && state != Blocked
      requires !raised
      modifies `state, `slots, `frontier, `reviews, `reviewConsumed, `reviewRound, `loopBackHistory, `rounds,
               `openRecords, `openTaken, `transitionSeq, `prevState, `emitted, `signal, `reviewSignals, `raised
      ensures Inv() && 2 <= next <= |pipeline| && CostSum(emitted) == old(CostSum(emitted))
      ensures if ok then LoopHead(next) && |rounds| == |old(rounds)| + 1
                         && (next == idx + 1 || |rounds| < MAX_REVIEW_ROUNDS)
              else Itinerary(Phases(emitted), stages, rounds, idx)
      ensures ok ==> LateRound(rounds, timer)
      ensures raised == !ok
    {
      hide QueueInv, ChainInv, ShelfInv, Itinerary, Phases, CostSum, Ordered, Announced, Rewinds, LateRound;
      GatePlace(profile.value, pipeline, idx);
      RankOrder(pipeline, idx, 2);
      next := idx + 1;
      ghost var r;
      ok, r := RunPhaseS9(timer);
      if !ok { return; }
      LastRoundTaken(old(rounds), r);
      if r.outcome.Rewound? {
        TargetPlace(pipeline, r.outcome.target, idx);
        ItineraryBack(old(Phases(emitted)), pipeline, old(rounds), r, idx);
      } else {
        ItineraryOn(old(Phases(emitted)), pipeline, old(rounds), r, idx);
      }
      if state != At(S9) && state.At? && state.stage in pipeline[..idx] {
        next := Position(pipeline, state.stage);
      }
    }

    lemma RoundsCapped()
      requires Inv() && profile.Some? && PipelineOf(profile.value, stages)
      ensures |rounds| == reviewRound <= MAX_REVIEW_ROUNDS && |Rewinds(rounds)| < MAX_REVIEW_ROUNDS
    {
      RoundsBounded(stages, ReviewerCount(profile.value), rounds);
    }

    /** The last statements of `run`. */
    method Finish(idx: nat)
      requires Inv() && LoopHead(idx) && idx == |stages|
      modifies `state
      ensures Inv() && Itinerary(Phases(emitted), stages, rounds, idx) && Ended(idx)
    {
      hide QueueInv, ChainInv, ShelfInv, Itinerary, Phases;
      if state != Blocked { state := Finished; }
    }

    lemma Stopped(idx: nat)
      requires LoopHead(idx) && state == Blocked
      ensures Itinerary(Phases(emitted), stages, rounds, idx) && Ended(idx)
    {
      hide Itinerary, Phases;
    }

    lemma Starts()
      requires profile.Some? && PipelineOf(profile.value, stages)
      ensures 2 < |stages| && Position(stages, S0_5) == 2
    {
      ItineraryStarts(stages);
    }

    /** The main loop from S0.5 on; `pos` is the position reached. */
    method RunPipeline(timers: Timers) returns (ok: bool, ghost pos: nat)
      requires Inv() && LoopHead(2) && profile.Some? && PipelineOf(profile.value, stages)
      requires rounds == [] && CostSum(emitted) == spent && state != Blocked
      requires !raised
      modifies `state, `slots, `nextVersion, `frontier, `spent, `reviews, `reviewConsumed, `reviewRound,
               `loopBackHistory, `rounds, `openRecords, `openTaken, `submission, `retrospective, `transitionSeq,
               `prevState, `emitted, `signal, `reviewSignals, `raised
      ensures Inv() && Itinerary(Phases(emitted), stages, rounds, pos)
      ensures ok ==> CostSum(emitted) == spent && Ended(pos)
      ensures ok ==> LateRound(rounds, OfRound(timers, |rounds|))
      ensures raised == !ok
    {
      hide *;
      var pipeline := PipelineFor(profile.value);
      SamePipeline(profile.value, pipeline, stages);
      Starts();
      NoRoundIsLate(OfRound(timers, 0));
      var idx := Position(pipeline, S0_5);
      while idx < |pipeline|
        invariant 2 <= idx <= |pipeline| && Inv() && LoopHead(idx) && CostSum(emitted) == spent && !raised
        invariant LateRound(rounds, OfRound(timers, |rounds|))
        decreases MAX_REVIEW_ROUNDS - |rounds|, |pipeline| - idx
      {
        pos := idx;
        if state == Blocked {
          Stopped(idx);
          return true, idx;
        }
        if Rank(pipeline[idx]) < Rank(S9) {
          ok := TurnBefore(pipeline, idx);
          idx := idx + 1;
        } else if pipeline[idx] == S9 {
          RoundsCapped();
          ok, idx := TurnAtGate(pipeline, idx, OfRound(timers, reviewRound + 1));
        } else {
          ok := TurnAfter(pipeline, idx);
          idx := idx + 1;
        }
        if !ok { return; }
      }
      pos := idx;
      ok := true;
      Finish(idx);
    }

    /** The state a run starts from; signals may already be waiting. */
    ghost predicate Unstarted()
      reads this
    {
      && Inv() && Announced() && openRecords == [] && emitted == [] && rounds == []
      && bidCard == None && profile == None && submission == None && spent == 0
      && !raised && gate == Undecided
    }

    /** Intake and triage, up to the human gate. */
    method RunPrologue(input: WorkflowInput) returns (ok: bool)
      requires Unstarted()
      modifies `state, `bidCard, `triaged, `transitionSeq, `prevState, `emitted, `signal, `reviewSignals, `raised
      ensures Inv() && CostSum(emitted) == 0 && Phases(emitted) <= PROLOGUE
      ensures ok ==> Announced() && bidCard.Some? && Phases(emitted) == PROLOGUE && state == At(S1)
      ensures (old(signal).Some? ==> signal.Some?) && (input.prebuiltCard.Some? ==> bidCard == input.prebuiltCard)
      ensures ok <==> !raised && (input.prebuiltCard.Some? || input.intake)
    {
      hide QueueInv, ShelfInv;
      ok := RunS0(input);
      if !ok { return; }
      CompletePhase(Completed(S0), None);
      ok := RunS1Triage();
      if !ok { return; }
      CompletePhase(Completed(S1), None);
    }

    lemma StandsAtStart()
      requires Announced() && Phases(emitted) == PROLOGUE && rounds == [] && state == At(S1)
      requires Building(Rank(S0_5)) && PipelineOf(profile.value, stages)
      ensures LoopHead(2)
    {
      ItineraryStarts(stages);
    }

    /** How a run that raised nothing ends; `pos` is the pipeline position reached after the human gate. */
    ghost predicate Returned(pos: nat)
      reads this
    {
      && CostSum(emitted) == spent
      && if state == NoBid
         then Phases(emitted) == PROLOGUE + [Declined] && slots == map[] && rounds == [] && submission == None
              && (gate.Expired? || (gate.Ruled? && !gate.signal.approved))
         else gate.Ruled? && gate.signal.approved && profile.Some? && stages == Pipeline(profile.value)
              && Itinerary(Phases(emitted), stages, rounds, pos) && Ended(pos)
    }

    /** The announcements of a run that an activity's failure cut short. */
    ghost predicate CutShort(pos: nat)
      reads this
    {
      if profile == None then Phases(emitted) <= PROLOGUE && gate == Undecided
      else gate.Ruled? && gate.signal.approved && stages == Pipeline(profile.value)
           && Itinerary(Phases(emitted), stages, rounds, pos)
    }

    method RunToNoBid()
      requires Inv() && Announced() && bidCard.Some? && profile == None && state == NoBid && submission == None
               && spent == 0
      requires Phases(emitted) == PROLOGUE && CostSum(emitted) == 0
      requires gate != Undecided && !Lets(gate)
      modifies `transitionSeq, `prevState, `emitted, `signal, `reviewSignals
      ensures Inv() && Returned(0)
    {
      hide QueueInv, ChainInv;
      CompletePhase(Declined, None);
    }

    method RunApproved(timers: Timers) returns (ok: bool, ghost pos: nat)
      requires Inv() && Announced() && Phases(emitted) == PROLOGUE && rounds == [] && state == At(S1)
      requires profile.Some? && Building(Rank(S0_5)) && PipelineOf(profile.value, stages)
      requires spent == 0 && CostSum(emitted) == 0
      requires !raised && Lets(gate)
      modifies this
      ensures Inv() && if ok then Returned(pos) else CutShort(pos)
      ensures ok ==> LateRound(rounds, OfRound(timers, |rounds|))
      ensures profile == old(profile) && bidCard == old(bidCard) && gate == old(gate)
      ensures raised == !ok
    {
      hide Inv, Itinerary, Phases, Building, PipelineOf, Announced;
      StandsAtStart();
      PipelineUnique(profile.value, stages);
      ok, pos := RunPipeline(timers);
      assert ok ==> state != NoBid;
    }

    /** `run`: whatever the reviewers send, whenever they send it, and whichever activity fails. */
    method Run(input: WorkflowInput, expires: bool, timers: Timers) returns (ok: bool, ghost pos: nat)
      requires Unstarted()
      modifies this
      ensures Inv() && if ok then Returned(pos) else CutShort(pos)
      ensures ok <==> !raised && (input.prebuiltCard.Some? || input.intake)
      ensures ok && (old(signal).Some? || !expires) ==> gate.Ruled?
      ensures ok ==> LateRound(rounds, OfRound(timers, |rounds|))
      ensures input.prebuiltCard.Some? && profile.Some? ==>
                Settled(profile, input.prebuiltCard, gate)
                && bidCard == Some(input.prebuiltCard.value.(estimatedProfile := profile.value))
    {
      hide QueueInv, ChainInv, ShelfInv, Itinerary, Phases, PipelineOf;
      pos := 0;
      ok := RunPrologue(input);
      if !ok { return; }
      var approved := WaitHumanGate(expires);
      if !approved {
        RunToNoBid();
        return;
      }
      ok, pos := RunApproved(timers);
    }

    /**
     The event chain of every run past the human gate: numbered 1, 2, 3, ..., each event leaving the
     state the one before entered, stage by stage except for at most two jumps back from S9.
     */
    lemma {:induction false} EventChain(pos: nat) returns (trail: seq<Stage>)
      requires Inv() && profile.Some? && PipelineOf(profile.value, stages)
               && Itinerary(Phases(emitted), stages, rounds, pos)
      ensures bidCard.Some? && Chained(emitted, bidCard.value.bidId)
      ensures Phases(emitted) == PROLOGUE + Done(trail)
      ensures StepsOk(stages, Rewinds(rounds), trail) && Jumps(stages, Rewinds(rounds))
              && Backs(trail) < MAX_REVIEW_ROUNDS
      ensures pos > Entry(stages, Rewinds(rounds)) ==> trail != [] && trail[|trail| - 1] == stages[pos - 1]
    {
      hide QueueInv, Itinerary, RoundsOk, StepsOk, Jumps, Backs;
      trail := AnnouncedInOrder(Phases(emitted), stages, ReviewerCount(profile.value), rounds, pos);
    }

    /** The last event of a run that returned: S9_DONE if it is blocked, S11_DONE if it finished. */
    lemma {:induction false} LastAnnounced(pos: nat)
      requires Inv() && Returned(pos) && state != NoBid
      ensures emitted != [] && emitted[|emitted| - 1].toState == Completed(if state == Blocked then S9 else S11)
    {
      hide QueueInv, ChainInv, ShelfInv, Itinerary, StepsOk, Jumps, Backs, PipelineOf, Pipeline, Position, Rewinds,
           Done;
      PipelineIsOf(profile.value);
      var trail := EventChain(pos);
      EntryBeforeGate(stages, Rewinds(rounds));
      LastStage(profile.value, stages);
      LastPhase(Phases(emitted), trail);
    }

    /** At every gate exit the review log has one record a round and one a consumed signal. */
    lemma LogCount()
      requires Inv() && openRecords == []
      ensures |reviews| == reviewRound + reviewConsumed
    {
      hide ChainInv, ShelfInv, PlaceInv, SubmissionInv;
      ReviewCount(rounds);
    }

    /**
     Approval safety at any moment of any run, cut short or not: what has been submitted is the package
     of the last round, with a log that ends with the profile's number of approvals, and marked approved.
     */
    lemma SubmissionIsApproved()
      requires Inv() && submission.Some?
      ensures profile.Some? && submission.value.approvedByReview && submission.value.reviews == reviews
      ensures EndsApproved(submission.value.reviews, ReviewerCount(profile.value))
      ensures rounds != [] && rounds[|rounds| - 1].outcome == Passed
              && submission.value.package == rounds[|rounds| - 1].package
      ensures Package in slots && slots[Package].version == submission.value.package
    {
      hide ChainInv, PlaceInv, AllReviews, AllTaken, AllLoopBacks, RoundsOk, Records, EndsApproved, ArtifactsOk;
      AllReviewsAre(rounds, reviews);
      ApprovalSafety(stages, ReviewerCount(profile.value), rounds, slots, submission.value);
    }

    /**
     The same in numbers: one approval for Bid-S and Bid-M, three for Bid-L, five for Bid-XL, all of them taken
     in the last round.
     */
    lemma SubmissionTookApprovals()
      requires Inv() && submission.Some?
      ensures profile.Some? && rounds != []
      ensures var n := match profile.value case ProfileS => 1 case ProfileM => 1 case ProfileL => 3 case ProfileXL => 5;
              var all := submission.value.reviews;
              && |rounds[|rounds| - 1].taken| == n <= |all|
              && forall i :: |all| - n <= i < |all| ==> all[i].verdict == APPROVED
    {
      hide ChainInv, PlaceInv, AllReviews, AllTaken, AllLoopBacks, RoundsOk, Records, ArtifactsOk;
      SubmissionIsApproved();
      PassTakesApprovals(profile.value, stages, rounds, |rounds| - 1);
    }

    /** A run that finished has submitted, with those approvals. */
    lemma FinishedIsApproved(pos: nat)
      requires Inv() && Returned(pos) && state == Finished
      ensures submission.Some? && submission.value.approvedByReview
      ensures profile.Some? && EndsApproved(submission.value.reviews, ReviewerCount(profile.value))
    {
      hide QueueInv, ChainInv, ShelfInv, PlaceInv, Itinerary, CostSum, Pipeline, EndsApproved;
      SubmissionIsApproved();
    }

    /**
     The shelf of a blocked bid, from the moment it is blocked: filled up to the gate, except that a third
     request for changes has emptied it from the loop-back's target on. The stages up to the gate stay
     filled, and the package stays, exactly when the last round was not such a request.
     */
    lemma BlockedShelf(s: Slot)
      requires Inv() && state == Blocked
      ensures profile.Some? && rounds != []
      ensures s in slots <==> Has(profile.value, Home(s)) && Rank(Home(s)) < StoppedRank(rounds)
      ensures Package in slots <==> !rounds[|rounds| - 1].outcome.Capped?
    {
      hide QueueInv, ChainInv, SubmissionInv, AllReviews;
      ShelfHolds(slots, bidCard.value, profile.value, frontier, s);
      ShelfHolds(slots, bidCard.value, profile.value, frontier, Package);
      CappedAtTarget(profile.value, stages, ReviewerCount(profile.value), rounds);
    }

    /**
     In every reachable state each artifact was built from the current bid card and from the versions now
     present of exactly what its stage reads: the package, of all eight others.
     */
    lemma BuiltFromCurrent(s: Slot)
      requires Inv() && s in slots
      ensures bidCard.Some? && slots[s].card == bidCard.value
      ensures forall r :: r in slots[s].sources <==>
                r in slots && match s
                              case Scoping => false
                              case BaDraft => r == Scoping
                              case SaDraft => r == Scoping
                              case DomainNotes => r == Scoping
                              case Convergence => r == BaDraft || r == SaDraft || r == DomainNotes
                              case Hld => r == Convergence || r == SaDraft
                              case Wbs => r == Hld || r == BaDraft
                              case Pricing => r == Wbs
                              case Package => r != Package
      ensures forall r :: r in slots[s].sources ==> slots[s].sources[r] == slots[r].version
    {
      hide QueueInv, ChainInv, PlaceInv, SubmissionInv, RoundsOk;
      assert FreshAt(slots, bidCard.value, s);
    }

    /** The retrospective was made from all artifacts but the scoping, the design and the package. */
    lemma ReflectsOnSix(r: Slot)
      requires Reflected()
      ensures r in retrospective.value.sources <==> r in slots && r != Scoping && r != Hld && r != Package
      ensures r in retrospective.value.sources ==> retrospective.value.sources[r] == slots[r].version
    {
    }
  }
}
