/**
 The tables and value types of the bid workflow, and what is true of them: the per-profile
 pipelines, which artifact each stage writes and which artifacts it reads, the loop-back
 clean-up table, the review rounds and the order in which phases are announced.
 */
module WorkflowModel {
  import opened Prelude

  // ---------------------------------------------------------------- stages and pipelines

  datatype Profile = ProfileS | ProfileM | ProfileL | ProfileXL

  /** The pipeline states, in the order of the full pipeline. */
  datatype Stage = S0 | S1 | S0_5 | S2 | S3 | S4 | S5 | S6 | S7 | S8 | S9 | S10 | S11

  /** The value of `_state`; `Scoped` is "S2_DONE", `Finished` is "S11_DONE". */
  datatype WorkflowState = At(stage: Stage) | NoBid | Scoped | Blocked | Finished

  /** What a state-transition event announces: "<stage>_DONE" or "S1_NO_BID". */
  datatype Phase = Completed(stage: Stage) | Declined

  const FULL_PIPELINE: seq<Stage> := [S0, S1, S0_5, S2, S3, S4, S5, S6, S7, S8, S9, S10, S11]
  const SHORT_PIPELINE: seq<Stage> := [S0, S1, S0_5, S2, S3, S4, S6, S8, S9, S10, S11]

  function Pipeline(p: Profile): seq<Stage> {
    if p == ProfileS then SHORT_PIPELINE else FULL_PIPELINE
  }

  /** Membership in the profile's pipeline (see `PipelineOrdered`). */
  predicate Has(p: Profile, s: Stage) {
    p == ProfileS ==> s != S5 && s != S7
  }

  function Rank(s: Stage): nat {
    match s
    case S0 => 0 case S1 => 1 case S0_5 => 2 case S2 => 3 case S3 => 4 case S4 => 5 case S5 => 6
    case S6 => 7 case S7 => 8 case S8 => 9 case S9 => 10 case S10 => 11 case S11 => 12
  }

  /** `stages.index(s)`. */
  function FirstIndex(stages: seq<Stage>, s: Stage): (i: nat)
    requires s in stages
    ensures i < |stages| && stages[i] == s && s !in stages[..i]
  {
    if stages[0] == s then 0 else
      var i := 1 + FirstIndex(stages[1..], s);
      assert stages[..i] == [stages[0]] + stages[1..][..i - 1];
      i
  }

  /** `FirstIndex`, or the length when the stage is absent. */
  function Position(stages: seq<Stage>, s: Stage): (i: nat)
    ensures s in stages ==> i < |stages| && stages[i] == s
  {
    if s in stages then FirstIndex(stages, s) else |stages|
  }

  function Slice(stages: seq<Stage>, lo: nat, hi: nat): seq<Stage> {
    if lo <= hi <= |stages| then stages[lo..hi] else []
  }

  ghost predicate RankedAt(stages: seq<Stage>, i: nat, j: nat)
    requires i < |stages| && j < |stages|
  {
    Rank(stages[i]) < Rank(stages[j])
  }

  ghost predicate Ordered(stages: seq<Stage>) {
    forall i: nat, j: nat {:trigger RankedAt(stages, i, j)} :: i < j < |stages| ==> RankedAt(stages, i, j)
  }

  /** Every pipeline lists its stages in strictly increasing rank and skips only S5 and S7, only for Bid-S. */
  lemma PipelineOrdered(p: Profile)
    ensures Ordered(Pipeline(p))
    ensures forall s: Stage :: s in Pipeline(p) <==> Has(p, s)
    ensures |Pipeline(p)| > 2 && Pipeline(p)[2] == S0_5
  {
    forall s: Stage
      ensures s in Pipeline(p) <==> Has(p, s)
    {
      if p == ProfileS {
        var i := match s case S0 => 0 case S1 => 1 case S0_5 => 2 case S2 => 3 case S3 => 4 case S4 => 5
                 case S5 => 0 case S6 => 6 case S7 => 0 case S8 => 7 case S9 => 8 case S10 => 9 case S11 => 10;
        assert s == S5 || s == S7 || SHORT_PIPELINE[i] == s;
      } else {
        assert FULL_PIPELINE[Rank(s)] == s;
      }
    }
  }

  /** Only Bid-S skips stages, and it skips solution design and pricing. */
  lemma OnlyBidSSkips(p: Profile, s: Stage)
    ensures s in Pipeline(p) <==> !(p == ProfileS && (s == S5 || s == S7))
    ensures |Pipeline(p)| == if p == ProfileS then 11 else 13
  {
    PipelineOrdered(p);
  }

  /** What later arguments need of a pipeline; every profile's has it. */
  ghost predicate Layout(stages: seq<Stage>) {
    && Ordered(stages)
    && S2 in stages && S6 in stages && S8 in stages && S9 in stages
    && |stages| > 2 && stages[2] == S0_5
  }

  /** What determines a profile's pipeline: its stages, in increasing rank. */
  ghost predicate PipelineOf(p: Profile, stages: seq<Stage>) {
    Layout(stages) && forall s: Stage :: s in stages <==> Has(p, s)
  }

  lemma OrderedIsOf(p: Profile, stages: seq<Stage>)
    requires Ordered(stages)
    requires forall s: Stage :: s in stages <==> Has(p, s)
    requires |stages| > 2 && stages[2] == S0_5
    ensures PipelineOf(p, stages)
  {
    assert Has(p, S2) && Has(p, S6) && Has(p, S8) && Has(p, S9);
  }

  lemma PipelineIsOf(p: Profile)
    ensures PipelineOf(p, Pipeline(p))
  {
    PipelineOrdered(p);
    OrderedIsOf(p, Pipeline(p));
  }

  method PipelineFor(p: Profile) returns (stages: seq<Stage>)
    ensures PipelineOf(p, stages)
  {
    PipelineIsOf(p);
    stages := Pipeline(p);
  }

  lemma OrderedTail(a: seq<Stage>)
    requires Ordered(a) && a != []
    ensures Ordered(a[1..]) && forall s :: s in a[1..] ==> Rank(a[0]) < Rank(s)
  {
    forall i: nat, j: nat | i < j < |a| - 1
      ensures RankedAt(a[1..], i, j)
    {
      assert RankedAt(a, i + 1, j + 1);
    }
    forall s | s in a[1..]
      ensures Rank(a[0]) < Rank(s)
    {
      assert RankedAt(a, 0, FirstIndex(a[1..], s) + 1);
    }
  }

  /** Two rank-ordered listings of the same stages are the same listing. */
  lemma {:induction false} OrderedListingUnique(a: seq<Stage>, b: seq<Stage>)
    requires Ordered(a) && Ordered(b)
    requires forall s: Stage :: s in a <==> s in b
    ensures a == b
  {
    hide Ordered;
    assert a != [] ==> a[0] in a;
    assert b != [] ==> b[0] in b;
    if a != [] {
      OrderedTail(a);
      OrderedTail(b);
      assert a == [a[0]] + a[1..] && b == [b[0]] + b[1..];
      assert a[0] == b[0];
      forall s: Stage
        ensures s in a[1..] <==> s in b[1..]
      {
        assert s in a <==> s == a[0] || s in a[1..];
        assert s in b <==> s == b[0] || s in b[1..];
      }
      OrderedListingUnique(a[1..], b[1..]);
    }
  }

  lemma RankOrder(stages: seq<Stage>, i: nat, j: nat)
    requires Layout(stages) && i < |stages| && j < |stages|
    ensures i < j <==> Rank(stages[i]) < Rank(stages[j])
  {
    assert i < j ==> RankedAt(stages, i, j);
    assert j < i ==> RankedAt(stages, j, i);
  }

  lemma IndexByRank(stages: seq<Stage>, s: Stage, idx: nat)
    requires Layout(stages) && s in stages && idx < |stages|
    ensures Rank(s) < Rank(stages[idx]) ==> FirstIndex(stages, s) < idx && s in stages[..idx]
    ensures s == stages[idx] ==> FirstIndex(stages, s) == idx
  {
    var i := FirstIndex(stages, s);
    RankOrder(stages, i, idx);
    RankOrder(stages, idx, i);
    if i < idx { assert stages[..idx][i] == s; }
  }

  /** `next` comes right after `stage` on the way to the gate. */
  ghost predicate Follows(p: Profile, stage: Stage, next: Stage) {
    && Rank(stage) < Rank(next) <= Rank(S9)
    && (forall s: Stage :: Rank(stage) < Rank(s) < Rank(next) ==> !Has(p, s))
    && (next == S9 ==> stage == S8)
  }

  lemma Successor(p: Profile, stages: seq<Stage>, idx: nat)
    requires PipelineOf(p, stages) && idx < |stages| && Rank(stages[idx]) < Rank(S9)
    ensures idx + 1 < |stages| && Follows(p, stages[idx], stages[idx + 1])
  {
    assert Has(p, S9) && Has(p, S8);
    RankOrder(stages, idx, FirstIndex(stages, S9));
    RankOrder(stages, idx + 1, FirstIndex(stages, S9));
    RankOrder(stages, FirstIndex(stages, S9), idx + 1);
    RankOrder(stages, idx, idx + 1);
    forall s: Stage | s in stages && Rank(stages[idx]) < Rank(s)
      ensures Rank(stages[idx + 1]) <= Rank(s)
    {
      RankOrder(stages, idx, FirstIndex(stages, s));
      RankOrder(stages, FirstIndex(stages, s), idx + 1);
    }
  }

  /** After the gate only S10 and S11 remain, in that order. */
  lemma TailOfPipeline(p: Profile, stages: seq<Stage>, idx: nat)
    requires PipelineOf(p, stages) && idx < |stages|
    ensures stages[idx] == S9 ==> idx + 1 < |stages| && stages[idx + 1] == S10
    ensures stages[idx] == S10 ==> idx + 1 < |stages| && stages[idx + 1] == S11
    ensures stages[idx] == S11 ==> idx + 1 == |stages|
  {
    assert Has(p, S10) && Has(p, S11);
    var i, j := FirstIndex(stages, S10), FirstIndex(stages, S11);
    RankOrder(stages, idx, i);
    RankOrder(stages, idx, j);
    if idx + 1 < |stages| {
      RankOrder(stages, idx, idx + 1);
      RankOrder(stages, i, idx + 1);
      RankOrder(stages, j, idx + 1);
    }
  }

  lemma SamePipeline(p: Profile, a: seq<Stage>, b: seq<Stage>)
    requires PipelineOf(p, a) && PipelineOf(p, b)
    ensures a == b
  {
    forall s: Stage
      ensures s in a <==> s in b
    {
      assert s in a <==> Has(p, s);
    }
    OrderedListingUnique(a, b);
  }

  lemma PipelineUnique(p: Profile, stages: seq<Stage>)
    requires PipelineOf(p, stages)
    ensures stages == Pipeline(p)
  {
    PipelineOrdered(p);
    OrderedListingUnique(stages, Pipeline(p));
  }

  // ---------------------------------------------------------------- artifacts

  /** The attributes that hold one built artifact each. */
  datatype Slot = Scoping | BaDraft | SaDraft | DomainNotes | Convergence | Hld | Wbs | Pricing | Package

  datatype BidCard = BidCard(bidId: string, tenantId: string, estimatedProfile: Profile,
                             hasContext: bool, hasParseSession: bool)

  /** One activity result: which execution produced it, what it cost in micro-USD, and what it was built from. */
  datatype Artifact = Artifact(version: nat, cost: Option<int>, card: BidCard,
                               sources: map<Slot, nat>, reviewsSeen: nat)

  /** The stage whose handler assigns the slot. */
  function Home(s: Slot): Stage {
    match s
    case Scoping => S2
    case BaDraft => S3 case SaDraft => S3 case DomainNotes => S3
    case Convergence => S4
    case Hld => S5
    case Wbs => S6
    case Pricing => S7
    case Package => S8
  }

  /** The slots that the handler writing `s` puts into its activity input. */
  function Reads(s: Slot): set<Slot> {
    match s
    case Scoping => {}
    case BaDraft => {Scoping} case SaDraft => {Scoping} case DomainNotes => {Scoping}
    case Convergence => {BaDraft, SaDraft, DomainNotes}
    case Hld => {Convergence, SaDraft}
    case Wbs => {Hld, BaDraft}
    case Pricing => {Wbs}
    case Package => {BaDraft, SaDraft, DomainNotes, Hld, Wbs, Pricing, Scoping, Convergence}
  }

  /** The versions currently present of everything `s` is built from. */
  function SourcesOf(slots: map<Slot, Artifact>, s: Slot): map<Slot, nat> {
    map r | r in Reads(s) && r in slots :: slots[r].version
  }

  /** The artifact in `s` was built from exactly the versions now present of all it reads. */
  ghost predicate FreshAt(slots: map<Slot, Artifact>, card: BidCard, s: Slot)
    requires s in slots
  {
    slots[s].card == card && slots[s].sources == SourcesOf(slots, s)
  }

  ghost predicate Fresh(slots: map<Slot, Artifact>, card: BidCard) {
    forall s {:trigger FreshAt(slots, card, s)} :: s in slots ==> FreshAt(slots, card, s)
  }

  ghost predicate FilledAt(slots: map<Slot, Artifact>, p: Profile, rank: nat, s: Slot) {
    s in slots <==> Has(p, Home(s)) && Rank(Home(s)) < rank
  }

  /** The slots present are those whose stage is in the pipeline and ranks below `rank`. */
  ghost predicate FilledBelow(slots: map<Slot, Artifact>, p: Profile, rank: nat) {
    forall s {:trigger FilledAt(slots, p, rank, s)} :: FilledAt(slots, p, rank, s)
  }

  lemma ReadsComeEarlier(s: Slot, r: Slot)
    requires r in Reads(s)
    ensures Rank(Home(r)) < Rank(Home(s))
  {
  }

  /** Filling a slot keeps every artifact fresh when nothing present reads that slot. */
  lemma BuildKeepsFresh(slots: map<Slot, Artifact>, card: BidCard, s: Slot, a: Artifact)
    requires Fresh(slots, card)
    requires a.card == card && a.sources == SourcesOf(slots, s)
    requires s !in slots && (forall t :: t in slots ==> Rank(Home(t)) <= Rank(Home(s)))
    ensures Fresh(slots[s := a], card)
  {
    var after := slots[s := a];
    forall t | t in after
      ensures FreshAt(after, card, t)
    {
      if s in Reads(t) { ReadsComeEarlier(t, s); }
      assert t == s || FreshAt(slots, card, t);
      assert SourcesOf(after, t) == SourcesOf(slots, t);
    }
  }

  /** What the shelf of artifacts satisfies in every reachable state. */
  ghost predicate ShelfOk(slots: map<Slot, Artifact>, card: BidCard, p: Profile, rank: nat) {
    Fresh(slots, card) && FilledBelow(slots, p, rank)
  }

  ghost predicate ArtifactsOk(slots: map<Slot, Artifact>, nextVersion: nat, card: Option<BidCard>, p: Option<Profile>,
                              rank: nat) {
    && (forall s {:trigger slots[s]} :: s in slots ==> slots[s].version < nextVersion)
    && (if card.Some? && p.Some? then ShelfOk(slots, card.value, p.value, rank) else slots == map[])
  }

  /** Between the stages of rank `from` and `to` the profile has none. */
  ghost predicate Gap(p: Profile, from: nat, to: nat) {
    from < to && forall s: Stage :: from < Rank(s) < to ==> !Has(p, s)
  }

  /** How far the shelf of a blocked bid is filled: a capped request has cleared everything from its target on. */
  function StoppedRank(rounds: seq<Round>): nat {
    if rounds != [] && rounds[|rounds| - 1].outcome.Capped? then Rank(rounds[|rounds| - 1].outcome.target) else Rank(S9)
  }

  /** How far the shelf is filled, seen from `_state`: up to its stage, or through it. */
  ghost predicate PlaceOk(state: WorkflowState, p: Profile, rank: nat, rounds: seq<Round>) {
    match state
    case At(s) => if Rank(s) >= Rank(S9) then rank == Rank(S9) else rank == Rank(s) || Gap(p, Rank(s), rank)
    case Scoped => Gap(p, Rank(S2), rank)
    case Finished => rank == Rank(S9)
    case Blocked => rounds != [] && rank == StoppedRank(rounds)
    case NoBid => true
  }

  lemma PlaceAtTarget(p: Profile, t: Stage, rounds: seq<Round>, r: Round)
    requires Rank(t) < Rank(S9) && (r.outcome == Capped(t) || r.outcome == Rewound(t))
    ensures PlaceOk(if r.outcome.Capped? then Blocked else At(t), p, Rank(t), rounds + [r])
  {
  }

  lemma PlaceAtGate(p: Profile, rounds: seq<Round>, r: Round)
    requires !r.outcome.Capped? && !r.outcome.Rewound?
    ensures PlaceOk(Blocked, p, Rank(S9), rounds + [r]) && PlaceOk(At(S9), p, Rank(S9), rounds + [r])
  {
  }

  /** The value of `_state` once the handler of a stage before the gate is done. */
  function StateAfter(stage: Stage): WorkflowState {
    if stage == S2 then Scoped else At(stage)
  }

  /** S0.5 writes no artifact. */
  lemma ShelfPassesS0_5(slots: map<Slot, Artifact>, card: BidCard, p: Profile)
    requires ShelfOk(slots, card, p, Rank(S0_5))
    ensures ShelfOk(slots, card, p, Rank(S0_5) + 1)
  {
    ShelfSkips(slots, card, p, Rank(S0_5), Rank(S0_5) + 1);
  }

  lemma EmptyShelf(card: BidCard, p: Profile)
    ensures ShelfOk(map[], card, p, Rank(S0_5))
  {
    forall s: Slot
      ensures FilledAt(map[], p, Rank(S0_5), s)
    {
    }
  }

  lemma ShelfHolds(slots: map<Slot, Artifact>, card: BidCard, p: Profile, rank: nat, s: Slot)
    requires ShelfOk(slots, card, p, rank)
    ensures s in slots <==> Has(p, Home(s)) && Rank(Home(s)) < rank
  {
    assert FilledAt(slots, p, rank, s);
  }

  /** A stage that writes nothing present, or is skipped, moves the frontier over it. */
  lemma ShelfSkips(slots: map<Slot, Artifact>, card: BidCard, p: Profile, rank: nat, next: nat)
    requires ShelfOk(slots, card, p, rank) && rank <= next
    requires forall s: Slot :: rank <= Rank(Home(s)) < next ==> !Has(p, Home(s))
    ensures ShelfOk(slots, card, p, next)
  {
    forall s: Slot
      ensures FilledAt(slots, p, next, s)
    {
      assert FilledAt(slots, p, rank, s);
    }
  }

  lemma ShelfStores(slots: map<Slot, Artifact>, next: nat, card: BidCard, p: Profile, s: Slot, a: Artifact)
    requires ArtifactsOk(slots, next, Some(card), Some(p), Rank(Home(s))) && Has(p, Home(s)) && Home(s) != S3
    requires a.version == next && a.card == card && a.sources == SourcesOf(slots, s)
    ensures ArtifactsOk(slots[s := a], next + 1, Some(card), Some(p), Rank(Home(s)) + 1)
  {
    forall t: Slot
      ensures FilledAt(slots[s := a], p, Rank(Home(s)) + 1, t)
      ensures t in slots ==> Rank(Home(t)) <= Rank(Home(s))
    {
      assert FilledAt(slots, p, Rank(Home(s)), t);
    }
    assert FilledAt(slots, p, Rank(Home(s)), s);
    BuildKeepsFresh(slots, card, s, a);
  }

  /** The three parallel streams are stored together. */
  lemma ShelfStoresStreams(slots: map<Slot, Artifact>, next: nat, card: BidCard, p: Profile,
                           ba: Artifact, sa: Artifact, dn: Artifact)
    requires ArtifactsOk(slots, next, Some(card), Some(p), Rank(S3)) && Has(p, S3) && Scoping in slots
    requires ba.version == next && sa.version == next + 1 && dn.version == next + 2
    requires ba.card == sa.card == dn.card == card
    requires ba.sources == sa.sources == dn.sources == map[Scoping := slots[Scoping].version]
    ensures ArtifactsOk(slots[BaDraft := ba][SaDraft := sa][DomainNotes := dn], next + 3, Some(card), Some(p),
                        Rank(S3) + 1)
  {
    var one := slots[BaDraft := ba];
    var two := one[SaDraft := sa];
    var three := two[DomainNotes := dn];
    hide Has;
    forall t: Slot
      ensures FilledAt(three, p, Rank(S3) + 1, t)
      ensures t in slots ==> Rank(Home(t)) < Rank(S3)
    {
      assert FilledAt(slots, p, Rank(S3), t);
    }
    assert ba.sources == SourcesOf(slots, BaDraft);
    BuildKeepsFresh(slots, card, BaDraft, ba);
    assert sa.sources == SourcesOf(one, SaDraft);
    BuildKeepsFresh(one, card, SaDraft, sa);
    assert dn.sources == SourcesOf(two, DomainNotes);
    BuildKeepsFresh(two, card, DomainNotes, dn);
  }

  ghost predicate OnlyStreamsAdded(before: map<Slot, Artifact>, after: map<Slot, Artifact>) {
    && BaDraft in after && SaDraft in after && DomainNotes in after
    && after == before[BaDraft := after[BaDraft]][SaDraft := after[SaDraft]][DomainNotes := after[DomainNotes]]
  }

  // The activity inputs, as each handler assembles them: the version of every artifact passed.

  function StreamInput(slots: map<Slot, Artifact>): map<Slot, nat>
    requires Scoping in slots
  {
    map[Scoping := slots[Scoping].version]
  }

  function ConvergenceInput(slots: map<Slot, Artifact>): map<Slot, nat>
    requires BaDraft in slots && SaDraft in slots && DomainNotes in slots
  {
    map[BaDraft := slots[BaDraft].version, SaDraft := slots[SaDraft].version, DomainNotes := slots[DomainNotes].version]
  }

  function SolutionDesignInput(slots: map<Slot, Artifact>): map<Slot, nat>
    requires Convergence in slots && SaDraft in slots
  {
    map[Convergence := slots[Convergence].version, SaDraft := slots[SaDraft].version]
  }

  /** An attribute passed as it is, None included. */
  function Optionally(slots: map<Slot, Artifact>, s: Slot): map<Slot, nat> {
    if s in slots then map[s := slots[s].version] else map[]
  }

  function WbsInput(slots: map<Slot, Artifact>): map<Slot, nat>
    requires BaDraft in slots
  {
    map[BaDraft := slots[BaDraft].version] + Optionally(slots, Hld)
  }

  function CommercialInput(slots: map<Slot, Artifact>): map<Slot, nat>
    requires Wbs in slots
  {
    map[Wbs := slots[Wbs].version]
  }

  function AssemblyInput(slots: map<Slot, Artifact>): map<Slot, nat>
    requires BaDraft in slots && SaDraft in slots && DomainNotes in slots && Wbs in slots
  {
    ConvergenceInput(slots) + CommercialInput(slots) + Optionally(slots, Hld) + Optionally(slots, Pricing)
    + Optionally(slots, Scoping) + Optionally(slots, Convergence)
  }

  // What each handler asserts on entry holds when the stages before it are done, and its input is
  // the current version of everything it reads.

  lemma ReadyForStreams(slots: map<Slot, Artifact>, card: BidCard, p: Profile)
    requires ShelfOk(slots, card, p, Rank(S3))
    ensures Scoping in slots
  {
    ShelfHolds(slots, card, p, Rank(S3), Scoping);
  }

  lemma ReadyForConvergence(slots: map<Slot, Artifact>, card: BidCard, p: Profile)
    requires ShelfOk(slots, card, p, Rank(S4))
    ensures BaDraft in slots && SaDraft in slots && DomainNotes in slots
    ensures ConvergenceInput(slots) == SourcesOf(slots, Convergence)
  {
    ShelfHolds(slots, card, p, Rank(S4), BaDraft);
    ShelfHolds(slots, card, p, Rank(S4), SaDraft);
    ShelfHolds(slots, card, p, Rank(S4), DomainNotes);
  }

  lemma ReadyForSolutionDesign(slots: map<Slot, Artifact>, card: BidCard, p: Profile)
    requires ShelfOk(slots, card, p, Rank(S5))
    ensures Convergence in slots && SaDraft in slots
    ensures SolutionDesignInput(slots) == SourcesOf(slots, Hld)
  {
    ShelfHolds(slots, card, p, Rank(S5), Convergence);
    ShelfHolds(slots, card, p, Rank(S5), SaDraft);
  }

  lemma ReadyForWbs(slots: map<Slot, Artifact>, card: BidCard, p: Profile)
    requires ShelfOk(slots, card, p, Rank(S6))
    ensures BaDraft in slots
    ensures WbsInput(slots) == SourcesOf(slots, Wbs)
  {
    ShelfHolds(slots, card, p, Rank(S6), BaDraft);
  }

  lemma ReadyForCommercial(slots: map<Slot, Artifact>, card: BidCard, p: Profile)
    requires ShelfOk(slots, card, p, Rank(S7))
    ensures Wbs in slots
    ensures CommercialInput(slots) == SourcesOf(slots, Pricing)
  {
    ShelfHolds(slots, card, p, Rank(S7), Wbs);
  }

  lemma ReadyForAssembly(slots: map<Slot, Artifact>, card: BidCard, p: Profile)
    requires ShelfOk(slots, card, p, Rank(S8))
    ensures BaDraft in slots && SaDraft in slots && DomainNotes in slots && Wbs in slots
    ensures AssemblyInput(slots) == SourcesOf(slots, Package)
  {
    ShelfHolds(slots, card, p, Rank(S8), BaDraft);
    ShelfHolds(slots, card, p, Rank(S8), SaDraft);
    ShelfHolds(slots, card, p, Rank(S8), DomainNotes);
    ShelfHolds(slots, card, p, Rank(S8), Wbs);
    AssemblyReads(slots);
  }

  /** `m` holds the current version of each present slot of `names`, and nothing else. */
  ghost predicate Current(m: map<Slot, nat>, slots: map<Slot, Artifact>, names: set<Slot>) {
    && (forall r :: r in m <==> r in names && r in slots)
    && (forall r :: r in m ==> m[r] == slots[r].version)
  }

  lemma CurrentAdds(a: map<Slot, nat>, slots: map<Slot, Artifact>, x: set<Slot>, s: Slot)
    returns (m: map<Slot, nat>, y: set<Slot>)
    requires Current(a, slots, x)
    ensures m == a + Optionally(slots, s) && y == x + {s} && Current(m, slots, y)
  {
    m, y := a + Optionally(slots, s), x + {s};
  }

  lemma AssemblyBase(slots: map<Slot, Artifact>) returns (m: map<Slot, nat>, x: set<Slot>)
    requires BaDraft in slots && SaDraft in slots && DomainNotes in slots && Wbs in slots
    ensures m == ConvergenceInput(slots) + CommercialInput(slots) + Optionally(slots, Hld)
    ensures x == {BaDraft, SaDraft, DomainNotes, Wbs, Hld} && Current(m, slots, x)
  {
    m, x := ConvergenceInput(slots), {BaDraft, SaDraft, DomainNotes};
    assert CommercialInput(slots) == Optionally(slots, Wbs);
    m, x := CurrentAdds(m, slots, x, Wbs);
    m, x := CurrentAdds(m, slots, x, Hld);
  }

  lemma {:induction false} AssemblyReads(slots: map<Slot, Artifact>)
    requires BaDraft in slots && SaDraft in slots && DomainNotes in slots && Wbs in slots
    ensures AssemblyInput(slots) == SourcesOf(slots, Package)
  {
    hide Current, Optionally, SourcesOf, ConvergenceInput, CommercialInput;
    var m, x := AssemblyBase(slots);
    m, x := CurrentAdds(m, slots, x, Pricing);
    m, x := CurrentAdds(m, slots, x, Scoping);
    m, x := CurrentAdds(m, slots, x, Convergence);
    CurrentIsSources(m, slots, x, Package);
  }

  lemma CurrentIsSources(m: map<Slot, nat>, slots: map<Slot, Artifact>, x: set<Slot>, s: Slot)
    requires Current(m, slots, x) && x == Reads(s)
    ensures m == SourcesOf(slots, s)
  {
  }

  /** The artifacts the retrospective is given, None included. */
  const RETROSPECTIVE_READS: set<Slot> := {BaDraft, SaDraft, DomainNotes, Convergence, Wbs, Pricing}

  function RetrospectiveInput(slots: map<Slot, Artifact>): map<Slot, nat> {
    Optionally(slots, BaDraft) + Optionally(slots, SaDraft) + Optionally(slots, DomainNotes)
    + Optionally(slots, Convergence) + Optionally(slots, Wbs) + Optionally(slots, Pricing)
  }

  lemma RetrospectiveReads(slots: map<Slot, Artifact>)
    ensures Current(RetrospectiveInput(slots), slots, RETROSPECTIVE_READS)
  {
    hide Current, Optionally;
    CurrentOne(slots, BaDraft);
    var m, x := CurrentAdds(Optionally(slots, BaDraft), slots, {BaDraft}, SaDraft);
    m, x := CurrentAdds(m, slots, x, DomainNotes);
    m, x := CurrentAdds(m, slots, x, Convergence);
    m, x := CurrentAdds(m, slots, x, Wbs);
    m, x := CurrentAdds(m, slots, x, Pricing);
    assert x == RETROSPECTIVE_READS;
  }

  lemma CurrentOne(slots: map<Slot, Artifact>, s: Slot)
    ensures Current(Optionally(slots, s), slots, {s})
  {
  }

  // ---------------------------------------------------------------- loop-back targets and clean-up

  /** The stages a reviewer may send a bid back to. */
  predicate IsLoopTarget(s: Stage) {
    s == S2 || s == S5 || s == S6 || s == S8
  }

  type LoopTarget = s: Stage | IsLoopTarget(s) witness S8

  /** The attribute names reset on a loop-back to `target`. */
  function Cleanup(target: Stage): seq<Slot> {
    match target
    case S2 => [Scoping, BaDraft, SaDraft, DomainNotes, Convergence, Hld, Wbs, Pricing, Package]
    case S5 => [Hld, Wbs, Pricing, Package]
    case S6 => [Wbs, Pricing, Package]
    case S8 => [Package]
    case _ => []
  }

  /** The clean-up table is exact: it names the slots written at or after the target, no more and no less. */
  lemma CleanupIsDownstream(target: LoopTarget, s: Slot)
    ensures s in Cleanup(target) <==> Rank(Home(s)) >= Rank(target)
  {
    match target {
      case S2 =>
        var i := match s case Scoping => 0 case BaDraft => 1 case SaDraft => 2 case DomainNotes => 3
                 case Convergence => 4 case Hld => 5 case Wbs => 6 case Pricing => 7 case Package => 8;
        assert Cleanup(S2)[i] == s;
      case S5 =>
        assert Cleanup(S5)[0] == Hld && Cleanup(S5)[1] == Wbs && Cleanup(S5)[2] == Pricing && Cleanup(S5)[3] == Package;
      case S6 =>
        assert Cleanup(S6)[0] == Wbs && Cleanup(S6)[1] == Pricing && Cleanup(S6)[2] == Package;
      case S8 =>
        assert Cleanup(S8)[0] == Package;
    }
  }

  /** Clearing the table's slots leaves only fresh artifacts and exactly those below the target. */
  lemma CleanupKeepsFresh(slots: map<Slot, Artifact>, card: BidCard, p: Profile, rank: nat, target: LoopTarget)
    requires ShelfOk(slots, card, p, rank) && Rank(target) <= rank
    ensures ShelfOk(slots - Elements(Cleanup(target)), card, p, Rank(target))
  {
    var after := slots - Elements(Cleanup(target));
    forall s: Slot
      ensures FilledAt(after, p, Rank(target), s)
    {
      CleanupIsDownstream(target, s);
      assert FilledAt(slots, p, rank, s);
    }
    forall s | s in after
      ensures FreshAt(after, card, s)
    {
      assert FreshAt(slots, card, s);
      forall r | r in Reads(s)
        ensures r in after <==> r in slots
      {
        ReadsComeEarlier(s, r);
        CleanupIsDownstream(target, r);
      }
      assert SourcesOf(after, s) == SourcesOf(slots, s);
    }
  }

  // ---------------------------------------------------------------- review signals and routing

  datatype Verdict = APPROVED | REJECTED | CHANGES_REQUESTED

  datatype Comment = Comment(text: string, target: Option<LoopTarget>)

  datatype ReviewSignal = ReviewSignal(verdict: Verdict, reviewer: string, comments: seq<Comment>)

  datatype TriageSignal = TriageSignal(approved: bool, profileOverride: Option<Profile>)

  datatype ReviewRecord = ReviewRecord(reviewer: string, verdict: Verdict, comments: seq<Comment>)

  datatype LoopBack = LoopBack(round: nat, target: Stage)

  datatype Submission = Submission(package: nat, reviews: seq<ReviewRecord>, approvedByReview: bool)

  /** What the retrospective was made from, and what it cost. */
  datatype Retrospective = Retrospective(submission: Submission, card: BidCard, sources: map<Slot, nat>,
                                         reviews: seq<ReviewRecord>, cost: Option<int>)

  /** The LLM cost that completing `stage` reports. */
  function CostFor(stage: Stage, slots: map<Slot, Artifact>, retrospective: Option<Retrospective>): Option<int> {
    if stage == S5 && Hld in slots then slots[Hld].cost
    else if stage == S6 && Wbs in slots then slots[Wbs].cost
    else if stage == S7 && Pricing in slots then slots[Pricing].cost
    else if stage == S11 && retrospective.Some? then retrospective.value.cost
    else None
  }

  function ToRecord(s: ReviewSignal): ReviewRecord {
    ReviewRecord(s.reviewer, s.verdict, s.comments)
  }

  /** Position in the earliest-first order of loop-back targets. */
  function LoopRank(s: Stage): nat {
    match s case S2 => 0 case S5 => 1 case S6 => 2 case S8 => 3 case _ => 4
  }

  function NamedTargets(comments: seq<Comment>): seq<LoopTarget> {
    if comments == [] then []
    else (if comments[0].target.Some? then [comments[0].target.value] else []) + NamedTargets(comments[1..])
  }

  /** First element after a stable sort by loop-back rank. */
  function Earliest(targets: seq<LoopTarget>): (t: LoopTarget)
    requires targets != []
    ensures t in targets && forall u :: u in targets ==> LoopRank(t) <= LoopRank(u)
  {
    if |targets| == 1 then targets[0] else
      var rest := Earliest(targets[1..]);
      if LoopRank(targets[0]) <= LoopRank(rest) then targets[0] else rest
  }

  /** `[s for s in pipeline if s in _LOOP_BACK_ORDER and ranks[s] >= rank]` */
  function ForwardCandidates(stages: seq<Stage>, rank: nat): seq<Stage> {
    if stages == [] then []
    else (if IsLoopTarget(stages[0]) && LoopRank(stages[0]) >= rank then [stages[0]] else [])
         + ForwardCandidates(stages[1..], rank)
  }

  function ChosenTarget(comments: seq<Comment>): LoopTarget {
    var named := NamedTargets(comments);
    if named != [] then Earliest(named) else S8
  }

  function Route(stages: seq<Stage>, comments: seq<Comment>): Option<Stage> {
    var chosen := ChosenTarget(comments);
    if chosen in stages then Some(chosen) else
      var forward := ForwardCandidates(stages, LoopRank(chosen));
      if forward == [] then None else Some(forward[0])
  }

  lemma {:induction false} NamedTargetsExact(comments: seq<Comment>, t: LoopTarget)
    ensures t in NamedTargets(comments) <==> exists i :: 0 <= i < |comments| && comments[i].target == Some(t)
  {
    if comments != [] {
      NamedTargetsExact(comments[1..], t);
      assert forall i :: 1 <= i < |comments| ==> comments[i] == comments[1..][i - 1];
      if exists i :: 0 <= i < |comments| && comments[i].target == Some(t) {
        var i :| 0 <= i < |comments| && comments[i].target == Some(t);
        if i > 0 { assert comments[1..][i - 1].target == Some(t); }
      }
    }
  }

  /** The first forward candidate is the first listed stage that qualifies, and there is one if any stage qualifies. */
  lemma {:induction false} ForwardFirst(stages: seq<Stage>, rank: nat, j: nat)
    requires j < |stages| && IsLoopTarget(stages[j]) && LoopRank(stages[j]) >= rank
    ensures var forward := ForwardCandidates(stages, rank);
            && forward != []
            && exists i ::
                 0 <= i <= j && stages[i] == forward[0] && IsLoopTarget(stages[i]) && LoopRank(stages[i]) >= rank
  {
    if !(IsLoopTarget(stages[0]) && LoopRank(stages[0]) >= rank) {
      ForwardFirst(stages[1..], rank, j - 1);
      var forward := ForwardCandidates(stages[1..], rank);
      var i :| 0 <= i <= j - 1 && stages[1..][i] == forward[0];
      assert stages[i + 1] == forward[0];
    }
  }

  lemma ChosenIsEarliest(comments: seq<Comment>)
    ensures var chosen := ChosenTarget(comments);
            && (forall c :: c in comments && c.target.Some? ==> LoopRank(chosen) <= LoopRank(c.target.value))
            && ((exists c :: c in comments && c.target == Some(chosen))
                || (chosen == S8 && forall c :: c in comments ==> c.target.None?))
  {
    var chosen := ChosenTarget(comments);
    forall c | c in comments && c.target.Some?
      ensures LoopRank(chosen) <= LoopRank(c.target.value) && NamedTargets(comments) != []
    {
      NamedTargetsExact(comments, c.target.value);
    }
    if NamedTargets(comments) != [] {
      NamedTargetsExact(comments, chosen);
    }
  }

  /** The comment names a stage, and none of them names an earlier one. */
  ghost predicate EarliestNamed(comments: seq<Comment>, c: Comment) {
    c.target.Some? && forall d :: d in comments && d.target.Some? ==> Rank(c.target.value) <= Rank(d.target.value)
  }

  /**
   The loop-back target always exists, so the "no valid target" branch is dead. It is the
   earliest stage of the pipeline that may be looped to and is not before the earliest stage
   a comment names; it is S8 when no comment names a stage.
   */
  lemma RouteIsEarliestAvailable(stages: seq<Stage>, comments: seq<Comment>)
    requires Layout(stages)
    ensures Route(stages, comments).Some?
    ensures var t := Route(stages, comments).value;
            && IsLoopTarget(t) && t in stages
            && (forall c :: c in comments && c.target.Some? && c.target.value in stages
                  ==> Rank(t) <= Rank(c.target.value))
            && (forall s: Stage :: IsLoopTarget(s) && s in stages && Rank(s) < Rank(t)
                 ==> forall c :: c in comments && c.target.Some? ==> Rank(s) < Rank(c.target.value))
            && (if forall c :: c in comments ==> c.target.None? then t == S8
                else exists c :: c in comments && EarliestNamed(comments, c) && Rank(c.target.value) <= Rank(t))
  {
    hide Route, ChosenTarget, Layout, LoopRank;
    ChosenIsEarliest(comments);
    RouteFromChosen(stages, comments);
    var chosen := ChosenTarget(comments);
    forall c | c in comments && c.target.Some?
      ensures Rank(chosen) <= Rank(c.target.value)
    {
      LoopRankIsRank(chosen, c.target.value);
    }
    if c :| c in comments && c.target == Some(chosen) {
      assert EarliestNamed(comments, c);
    }
  }

  lemma LoopRankIsRank(s: LoopTarget, t: LoopTarget)
    ensures LoopRank(s) <= LoopRank(t) <==> Rank(s) <= Rank(t)
  {
  }

  /** The target is the first loop-back stage that the pipeline has at or after the one chosen. */
  lemma RouteFromChosen(stages: seq<Stage>, comments: seq<Comment>)
    requires Layout(stages)
    ensures Route(stages, comments).Some?
    ensures var t, chosen := Route(stages, comments).value, ChosenTarget(comments);
            && IsLoopTarget(t) && t in stages && Rank(chosen) <= Rank(t) && (chosen == S8 ==> t == S8)
            && forall s: Stage :: IsLoopTarget(s) && s in stages && Rank(chosen) <= Rank(s) ==> Rank(t) <= Rank(s)
  {
    var chosen := ChosenTarget(comments);
    hide ChosenTarget;
    if chosen !in stages {
      forall s: Stage | s in stages && IsLoopTarget(s) && Rank(chosen) <= Rank(s)
        ensures Route(stages, comments).Some?
        ensures var t := Route(stages, comments).value;
                t in stages && IsLoopTarget(t) && Rank(chosen) <= Rank(t) <= Rank(s)
      {
        ForwardIsEarliest(stages, chosen, s);
      }
      assert S8 in stages && Rank(chosen) <= Rank(S8);
    }
  }

  lemma ForwardIsEarliest(stages: seq<Stage>, chosen: LoopTarget, s: LoopTarget)
    requires Layout(stages) && s in stages && Rank(chosen) <= Rank(s)
    ensures var forward := ForwardCandidates(stages, LoopRank(chosen));
            && forward != [] && forward[0] in stages && IsLoopTarget(forward[0])
            && Rank(chosen) <= Rank(forward[0]) <= Rank(s)
  {
    hide ForwardCandidates, Ordered, FirstIndex;
    var j := Position(stages, s);
    LoopRankIsRank(chosen, s);
    ForwardFirst(stages, LoopRank(chosen), j);
    var forward := ForwardCandidates(stages, LoopRank(chosen));
    var i :| 0 <= i <= j && stages[i] == forward[0] && IsLoopTarget(stages[i])
             && LoopRank(stages[i]) >= LoopRank(chosen);
    RankOrder(stages, j, i);
    LoopRankIsRank(chosen, stages[i]);
  }

  /** A request that names one stage goes there, except that Bid-S has no S5 and goes to S6 instead. */
  lemma NamedStageIsTaken(p: Profile, t: Stage, text: string)
    requires t == S2 || t == S5 || t == S6 || t == S8
    ensures Route(Pipeline(p), [Comment(text, Some(t))]) == Some(if t == S5 && p == ProfileS then S6 else t)
  {
    hide Route, Pipeline, Layout;
    var comments := [Comment(text, Some(t))];
    PipelineIsOf(p);
    RouteIsEarliestAvailable(Pipeline(p), comments);
    assert comments[0].target == Some(t) && comments[0] in comments;
    var goal := if t == S5 && p == ProfileS then S6 else t;
    OnlyBidSSkips(p, goal);
    OnlyBidSSkips(p, Route(Pipeline(p), comments).value);
  }

  // ---------------------------------------------------------------- review rounds

  const MAX_REVIEW_ROUNDS: nat := 3

  function ReviewerCount(p: Profile): nat {
    match p case ProfileS => 1 case ProfileM => 1 case ProfileL => 3 case ProfileXL => 5
  }

  datatype Outcome = Passed | TimedOut | Refused | Unroutable | Capped(target: Stage) | Rewound(target: Stage)

  /** One finished run of the gate: the package judged, the review log it was assembled with, the signals consumed. */
  datatype Round = Round(package: nat, seenReviews: nat, preReview: ReviewRecord,
                         taken: seq<ReviewSignal>, outcome: Outcome)

  ghost predicate AllApproved(signals: seq<ReviewSignal>) {
    forall i :: 0 <= i < |signals| ==> signals[i].verdict == APPROVED
  }

  /** The outcome that round `number` must have, given the signals it consumed. */
  ghost predicate RoundOk(stages: seq<Stage>, reviewers: nat, number: nat, r: Round) {
    var n := |r.taken|;
    && n <= reviewers
    && (n > 0 ==> AllApproved(r.taken[..n - 1]))
    && match r.outcome
       case Passed => n == reviewers && AllApproved(r.taken)
       case TimedOut => n < reviewers && AllApproved(r.taken)
       case Refused => n > 0 && r.taken[n - 1].verdict == REJECTED
       case Unroutable => Changed(r.taken) && Route(stages, r.taken[n - 1].comments) == None
       case Capped(t) =>
         Changed(r.taken) && Route(stages, r.taken[n - 1].comments) == Some(t) && number >= MAX_REVIEW_ROUNDS
       case Rewound(t) =>
         Changed(r.taken) && Route(stages, r.taken[n - 1].comments) == Some(t) && number < MAX_REVIEW_ROUNDS
  }

  /** What asking the reviewers in turn can end with. */
  ghost predicate Heard(reviewers: nat, taken: seq<ReviewSignal>, timedOut: bool, last: Option<ReviewRecord>) {
    && |taken| <= reviewers
    && (timedOut ==> AllApproved(taken) && |taken| < reviewers)
    && (!timedOut ==>
          && taken != [] && last == Some(ToRecord(taken[|taken| - 1]))
          && AllApproved(taken[..|taken| - 1])
          && (last.value.verdict == APPROVED ==> |taken| == reviewers))
  }

  ghost predicate Changed(taken: seq<ReviewSignal>) {
    |taken| > 0 && taken[|taken| - 1].verdict == CHANGES_REQUESTED
  }

  /** The outcome of a request for changes, given where it routes. */
  function BackOutcome(number: nat, target: Option<Stage>): Outcome {
    if target.None? then Unroutable
    else if number >= MAX_REVIEW_ROUNDS then Capped(target.value)
    else Rewound(target.value)
  }

  lemma HeardChanges(stages: seq<Stage>, reviewers: nat, number: nat, package: nat, seen: nat, pre: ReviewRecord,
                     taken: seq<ReviewSignal>, last: ReviewRecord)
    requires Heard(reviewers, taken, false, Some(last)) && last.verdict == CHANGES_REQUESTED
    ensures var o := BackOutcome(number, Route(stages, last.comments));
            RoundOk(stages, reviewers, number, Round(package, seen, pre, taken, o))
  {
  }

  lemma HeardOtherwise(stages: seq<Stage>, reviewers: nat, number: nat, package: nat, seen: nat, pre: ReviewRecord,
                       taken: seq<ReviewSignal>, timedOut: bool, last: Option<ReviewRecord>)
    requires Heard(reviewers, taken, timedOut, last)
    requires timedOut || last.value.verdict != CHANGES_REQUESTED
    ensures var o := if timedOut then TimedOut else if last.value.verdict == REJECTED then Refused else Passed;
            RoundOk(stages, reviewers, number, Round(package, seen, pre, taken, o))
  {
  }

  function Records(taken: seq<ReviewSignal>): seq<ReviewRecord> {
    seq(|taken|, i requires 0 <= i < |taken| => ToRecord(taken[i]))
  }

  function AllReviews(rounds: seq<Round>): seq<ReviewRecord> {
    if rounds == [] then [] else
      var r := rounds[|rounds| - 1];
      AllReviews(rounds[..|rounds| - 1]) + [r.preReview] + Records(r.taken)
  }

  function AllTaken(rounds: seq<Round>): seq<ReviewSignal> {
    if rounds == [] then [] else AllTaken(rounds[..|rounds| - 1]) + rounds[|rounds| - 1].taken
  }

  function AllLoopBacks(rounds: seq<Round>): seq<LoopBack> {
    if rounds == [] then [] else
      var o := rounds[|rounds| - 1].outcome;
      AllLoopBacks(rounds[..|rounds| - 1])
      + if o.Capped? || o.Rewound? then [LoopBack(|rounds|, o.target)] else []
  }

  function Rewinds(rounds: seq<Round>): seq<Stage> {
    if rounds == [] then [] else
      var o := rounds[|rounds| - 1].outcome;
      Rewinds(rounds[..|rounds| - 1]) + if o.Rewound? then [o.target] else []
  }

  /**
   Each package was assembled with all reviews before its round, and only the last round did not send the bid
   back.
   */
  ghost predicate RoundAt(stages: seq<Stage>, reviewers: nat, rounds: seq<Round>, k: nat)
    requires k < |rounds|
  {
    && RoundOk(stages, reviewers, k + 1, rounds[k])
    && (k < |rounds| - 1 ==> rounds[k].outcome.Rewound?)
    && rounds[k].seenReviews == |AllReviews(rounds[..k])|
  }

  ghost predicate RoundsOk(stages: seq<Stage>, reviewers: nat, rounds: seq<Round>) {
    forall k: nat {:trigger RoundAt(stages, reviewers, rounds, k)} :: k < |rounds|
        ==> RoundAt(stages, reviewers, rounds, k)
  }

  /**
   FIFO queue: at any moment the human records are exactly the first `consumed` signals, in
   arrival order, after one pre-human record per round.
   */
  ghost predicate QueueOk(signals: seq<ReviewSignal>, consumed: nat, reviews: seq<ReviewRecord>,
                          rounds: seq<Round>, openRecords: seq<ReviewRecord>, openTaken: seq<ReviewSignal>) {
    && consumed <= |signals|
    && signals[..consumed] == AllTaken(rounds) + openTaken
    && reviews == AllReviews(rounds) + openRecords
    && (if openRecords == [] then openTaken == [] else openRecords[1..] == Records(openTaken))
  }

  /** The last round was passed by every reviewer, on the package now present. */
  ghost predicate ClearedBy(rounds: seq<Round>, slots: map<Slot, Artifact>) {
    && rounds != [] && rounds[|rounds| - 1].outcome == Passed
    && Package in slots && slots[Package].version == rounds[|rounds| - 1].package
  }

  lemma QueueTakes(signals: seq<ReviewSignal>, consumed: nat, reviews: seq<ReviewRecord>,
                   rounds: seq<Round>, openRecords: seq<ReviewRecord>, openTaken: seq<ReviewSignal>)
    requires QueueOk(signals, consumed, reviews, rounds, openRecords, openTaken)
    requires openRecords != [] && consumed < |signals|
    ensures var s := signals[consumed];
            QueueOk(signals, consumed + 1, reviews + [ToRecord(s)], rounds, openRecords + [ToRecord(s)],
                    openTaken + [s])
  {
    var s := signals[consumed];
    assert signals[..consumed + 1] == signals[..consumed] + [s];
    assert Records(openTaken + [s]) == Records(openTaken) + [ToRecord(s)];
    assert (openRecords + [ToRecord(s)])[1..] == openRecords[1..] + [ToRecord(s)];
  }

  lemma QueueCloses(signals: seq<ReviewSignal>, consumed: nat, reviews: seq<ReviewRecord>,
                    rounds: seq<Round>, openRecords: seq<ReviewRecord>, r: Round)
    requires QueueOk(signals, consumed, reviews, rounds, openRecords, r.taken)
    requires openRecords != [] && openRecords[0] == r.preReview
    ensures QueueOk(signals, consumed, reviews, rounds + [r], [], [])
  {
    assert (rounds + [r])[..|rounds|] == rounds;
    assert openRecords == [r.preReview] + Records(r.taken);
    assert AllReviews(rounds) + ([r.preReview] + Records(r.taken))
        == AllReviews(rounds) + [r.preReview] + Records(r.taken);
  }

  /** After a passed round the newest review record is an approval, so the submission checklist says so. */
  lemma LastReviewApproved(stages: seq<Stage>, reviewers: nat, rounds: seq<Round>)
    requires RoundsOk(stages, reviewers, rounds) && reviewers > 0
    requires rounds != [] && rounds[|rounds| - 1].outcome == Passed
    ensures var all := AllReviews(rounds);
            all != [] && all[|all| - 1].verdict == APPROVED
  {
    var n := |rounds| - 1;
    assert RoundAt(stages, reviewers, rounds, n);
    var taken := rounds[n].taken;
    assert Records(taken)[|taken| - 1] == ToRecord(taken[|taken| - 1]);
  }

  /** A passed round took one approval for Bid-S and Bid-M, three for Bid-L and five for Bid-XL, and nothing else. */
  lemma PassTakesApprovals(p: Profile, stages: seq<Stage>, rounds: seq<Round>, k: nat)
    requires RoundsOk(stages, ReviewerCount(p), rounds) && k < |rounds| && rounds[k].outcome == Passed
    ensures var n := match p case ProfileS => 1 case ProfileM => 1 case ProfileL => 3 case ProfileXL => 5;
            |rounds[k].taken| == n && forall i :: 0 <= i < n ==> rounds[k].taken[i].verdict == APPROVED
  {
    assert RoundAt(stages, ReviewerCount(p), rounds, k);
  }

  /** The checklist item of the submission: the newest review is an approval. */
  predicate Approves(reviews: seq<ReviewRecord>) {
    reviews != [] && reviews[|reviews| - 1].verdict == APPROVED
  }

  /** Only the newest record decides: a rejection after approvals undoes the item, and an empty log has none. */
  lemma NewestDecides(reviews: seq<ReviewRecord>, r: ReviewRecord)
    ensures Approves(reviews + [r]) <==> r.verdict == APPROVED
    ensures !Approves([])
  {
  }

  /** The submission carries the package on the shelf, the whole review log, and the checklist item as computed. */
  ghost predicate SubmittedAs(s: Option<Submission>, slots: map<Slot, Artifact>, reviews: seq<ReviewRecord>) {
    Package in slots && s == Some(Submission(slots[Package].version, reviews, Approves(reviews)))
  }

  /** The last `reviewers` records are approvals. */
  ghost predicate EndsApproved(reviews: seq<ReviewRecord>, reviewers: nat) {
    && reviewers <= |reviews|
    && forall i :: |reviews| - reviewers <= i < |reviews| ==> reviews[i].verdict == APPROVED
  }

  /**
   Approval safety: the submission is the very package that the last round judged; the log it
   carries ends with as many consecutive approvals as the profile asks for, taken in that round and
   with nothing after them, so the checklist item is true.
   */
  lemma {:induction false} ApprovalSafety(stages: seq<Stage>, reviewers: nat, rounds: seq<Round>,
                                          slots: map<Slot, Artifact>, s: Submission)
    requires RoundsOk(stages, reviewers, rounds) && ClearedBy(rounds, slots) && reviewers > 0
    requires SubmittedAs(Some(s), slots, AllReviews(rounds))
    ensures s.approvedByReview && s.package == rounds[|rounds| - 1].package
    ensures EndsApproved(s.reviews, reviewers)
    ensures s.reviews[|s.reviews| - reviewers..] == Records(rounds[|rounds| - 1].taken)
  {
    var n := |rounds| - 1;
    assert RoundAt(stages, reviewers, rounds, n);
    var before := AllReviews(rounds[..n]) + [rounds[n].preReview];
    assert s.reviews == before + Records(rounds[n].taken);
    LastReviewApproved(stages, reviewers, rounds);
  }

  lemma AllReviewsAre(rounds: seq<Round>, reviews: seq<ReviewRecord>)
    requires reviews == AllReviews(rounds) + []
    ensures reviews == AllReviews(rounds)
  {
  }

  /**
   The retrospective was made from the submission, the bid card, the artifacts on the shelf and the whole review
   log.
   */
  ghost predicate ReflectedAs(r: Option<Retrospective>, s: Option<Submission>, card: Option<BidCard>,
                              slots: map<Slot, Artifact>, reviews: seq<ReviewRecord>) {
    && r.Some? && s == Some(r.value.submission) && card == Some(r.value.card) && r.value.reviews == reviews
    && Current(r.value.sources, slots, RETROSPECTIVE_READS)
  }

  ghost predicate AllRewound(rounds: seq<Round>) {
    forall k :: 0 <= k < |rounds| ==> rounds[k].outcome.Rewound?
  }

  lemma LoopBacksSnoc(rounds: seq<Round>, r: Round)
    ensures AllLoopBacks(rounds + [r]) == AllLoopBacks(rounds)
              + if r.outcome.Capped? || r.outcome.Rewound? then [LoopBack(|rounds| + 1, r.outcome.target)] else []
    ensures Rewinds(rounds + [r]) == Rewinds(rounds) + if r.outcome.Rewound? then [r.outcome.target] else []
  {
    assert (rounds + [r])[..|rounds|] == rounds;
  }

  /** At each gate exit the review log holds one pre-human record a round and one record a consumed signal. */
  lemma {:induction false} ReviewCount(rounds: seq<Round>)
    ensures |AllReviews(rounds)| == |rounds| + |AllTaken(rounds)|
  {
    if rounds != [] { ReviewCount(rounds[..|rounds| - 1]); }
  }

  lemma {:induction false} RewindCount(rounds: seq<Round>)
    ensures |Rewinds(rounds)| <= |AllLoopBacks(rounds)| <= |rounds|
    ensures rounds != [] && !rounds[|rounds| - 1].outcome.Rewound? ==> |Rewinds(rounds)| < |rounds|
  {
    if rounds != [] { RewindCount(rounds[..|rounds| - 1]); }
  }

  lemma RoundsPrefix(stages: seq<Stage>, reviewers: nat, rounds: seq<Round>)
    requires RoundsOk(stages, reviewers, rounds) && rounds != []
    ensures RoundsOk(stages, reviewers, rounds[..|rounds| - 1])
  {
    var n := |rounds| - 1;
    forall k: nat | k < n
      ensures RoundAt(stages, reviewers, rounds[..n], k)
    {
      assert RoundAt(stages, reviewers, rounds, k);
      assert rounds[..n][..k] == rounds[..k];
    }
  }

  /**
   Every recorded loop-back is a rewind, except that a third request for changes records one and
   blocks: the two histories differ exactly when the last round was capped.
   */
  lemma {:induction false} LoopBacksAreRewinds(stages: seq<Stage>, reviewers: nat, rounds: seq<Round>)
    requires RoundsOk(stages, reviewers, rounds)
    ensures |AllLoopBacks(rounds)|
            == |Rewinds(rounds)| + if rounds != [] && rounds[|rounds| - 1].outcome.Capped? then 1 else 0
  {
    if rounds != [] {
      var n := |rounds| - 1;
      RoundsPrefix(stages, reviewers, rounds);
      LoopBacksAreRewinds(stages, reviewers, rounds[..n]);
      if n > 0 { assert RoundAt(stages, reviewers, rounds, n - 1); }
    }
  }

  /** The next round of a history, when the first reviewer asks for changes and names no stage. */
  function SentBack(rounds: seq<Round>): Round {
    Round(0, |AllReviews(rounds)|, ReviewRecord("pre", APPROVED, []), [ReviewSignal(CHANGES_REQUESTED, "reviewer", [])],
          BackOutcome(|rounds| + 1, Some(S8)))
  }

  lemma OneMoreRequest(stages: seq<Stage>, reviewers: nat, rounds: seq<Round>)
    requires Layout(stages) && reviewers > 0 && RoundsOk(stages, reviewers, rounds) && AllRewound(rounds)
    ensures var more := rounds + [SentBack(rounds)];
            && RoundsOk(stages, reviewers, more) && (|more| < MAX_REVIEW_ROUNDS ==> AllRewound(more))
            && AllLoopBacks(more) == AllLoopBacks(rounds) + [LoopBack(|more|, S8)]
            && Rewinds(more) == Rewinds(rounds) + if |more| < MAX_REVIEW_ROUNDS then [S8] else []
  {
    hide Layout, AllLoopBacks, Rewinds, AllReviews, Route;
    RouteIsEarliestAvailable(stages, []);
    RoundsExtend(stages, reviewers, rounds, SentBack(rounds));
    LoopBacksSnoc(rounds, SentBack(rounds));
  }

  /** `n` requests for changes in a row. */
  function Requests(n: nat): seq<Round> {
    if n == 0 then [] else Requests(n - 1) + [SentBack(Requests(n - 1))]
  }

  /** Three requests for changes in a row: an admissible history with three loop-backs and two rewinds. */
  lemma ThreeRequestsBlock(stages: seq<Stage>, reviewers: nat)
    requires Layout(stages) && reviewers > 0
    ensures var rounds := Requests(3);
            && RoundsOk(stages, reviewers, rounds) && |rounds| == 3 && rounds[2].outcome == Capped(S8)
            && AllLoopBacks(rounds) == [LoopBack(1, S8), LoopBack(2, S8), LoopBack(3, S8)]
            && Rewinds(rounds) == [S8, S8]
  {
    assert Requests(0) == [] && AllLoopBacks([]) == [] && Rewinds([]) == [];
    OneMoreRequest(stages, reviewers, Requests(0));
    assert Requests(1) == [] + [SentBack([])];
    hide Layout, RoundsOk, AllLoopBacks, Rewinds, AllReviews;
    OneMoreRequest(stages, reviewers, Requests(1));
    assert Requests(2) == Requests(1) + [SentBack(Requests(1))];
    OneMoreRequest(stages, reviewers, Requests(2));
    assert Requests(3) == Requests(2) + [SentBack(Requests(2))];
  }

  /** No finished round was unroutable. */
  lemma NeverUnroutable(stages: seq<Stage>, reviewers: nat, rounds: seq<Round>, k: nat)
    requires Layout(stages) && RoundsOk(stages, reviewers, rounds) && k < |rounds|
    ensures !rounds[k].outcome.Unroutable?
  {
    hide Layout, AllReviews, Route;
    assert RoundAt(stages, reviewers, rounds, k);
    var n := |rounds[k].taken|;
    if n > 0 { RouteIsEarliestAvailable(stages, rounds[k].taken[n - 1].comments); }
  }

  /** At most three gate rounds and at most two rewinds, whatever the reviewers send. */
  lemma RoundsBounded(stages: seq<Stage>, reviewers: nat, rounds: seq<Round>)
    requires RoundsOk(stages, reviewers, rounds)
    ensures |rounds| <= 3 && |Rewinds(rounds)| <= 2
  {
    hide AllReviews, Route, Rewinds, AllApproved;
    if |rounds| > 1 {
      assert RoundAt(stages, reviewers, rounds, |rounds| - 2);
    }
    RewindCount(rounds);
    if |rounds| == MAX_REVIEW_ROUNDS {
      assert RoundAt(stages, reviewers, rounds, MAX_REVIEW_ROUNDS - 1);
    }
  }

  /** A finished round extends a history in which every round so far sent the bid back. */
  lemma RoundsExtend(stages: seq<Stage>, reviewers: nat, rounds: seq<Round>, r: Round)
    requires RoundsOk(stages, reviewers, rounds) && AllRewound(rounds)
    requires RoundOk(stages, reviewers, |rounds| + 1, r) && r.seenReviews == |AllReviews(rounds)|
    ensures RoundsOk(stages, reviewers, rounds + [r])
  {
    var more := rounds + [r];
    assert more[..|rounds|] == rounds;
    forall k: nat | k < |more|
      ensures RoundAt(stages, reviewers, more, k)
    {
      if k < |rounds| {
        assert RoundAt(stages, reviewers, rounds, k);
        assert more[..k] == rounds[..k];
      }
    }
  }

  /** Each rewind of a well-formed history goes to a loop-back target of the pipeline. */
  lemma {:induction false} RewindsAreJumps(stages: seq<Stage>, reviewers: nat, rounds: seq<Round>)
    requires Layout(stages) && RoundsOk(stages, reviewers, rounds)
    ensures Jumps(stages, Rewinds(rounds))
  {
    hide AllReviews, Route, Layout, AllApproved, EarliestNamed;
    if rounds != [] {
      var n := |rounds| - 1;
      assert RoundAt(stages, reviewers, rounds, n);
      RoundsPrefix(stages, reviewers, rounds);
      RewindsAreJumps(stages, reviewers, rounds[..n]);
      if rounds[n].outcome.Rewound? {
        var taken := rounds[n].taken;
        RouteIsEarliestAvailable(stages, taken[|taken| - 1].comments);
      }
    }
  }

  // ---------------------------------------------------------------- announced phases

  datatype Event = Event(bidId: string, workflowId: string, seqNo: nat, tenantId: string,
                         fromState: Option<Phase>, toState: Phase, profile: Profile,
                         artifactKeys: seq<string>, occurredAt: string, cost: Option<int>)

  function ArtifactKeys(phase: Phase): seq<string> {
    match phase
    case Declined => []
    case Completed(S0) => ["bid_card"]
    case Completed(S0_5) => []
    case Completed(S1) => ["triage"]
    case Completed(S2) => ["scoping"]
    case Completed(S3) => ["ba_draft", "sa_draft", "domain_notes"]
    case Completed(S4) => ["convergence"]
    case Completed(S5) => ["hld"]
    case Completed(S6) => ["wbs"]
    case Completed(S7) => ["pricing"]
    case Completed(S8) => ["proposal_package"]
    case Completed(S9) => ["reviews"]
    case Completed(S10) => ["submission"]
    case Completed(S11) => ["retrospective"]
  }

  /** The name of a slot in the bid's state. */
  function SlotKey(s: Slot): string {
    match s
    case Scoping => "scoping"
    case BaDraft => "ba_draft" case SaDraft => "sa_draft" case DomainNotes => "domain_notes"
    case Convergence => "convergence"
    case Hld => "hld"
    case Wbs => "wbs"
    case Pricing => "pricing"
    case Package => "proposal_package"
  }

  /** A stage announces exactly the slots that its handler writes. */
  lemma StageAnnouncesItsSlots(s: Slot, t: Stage)
    ensures SlotKey(s) in ArtifactKeys(Completed(t)) <==> t == Home(s)
  {
    var keys := ArtifactKeys(Completed(t));
    if t == Home(s) {
      assert keys[match s case SaDraft => 1 case DomainNotes => 2 case _ => 0] == SlotKey(s);
    } else {
      forall i | 0 <= i < |keys|
        ensures keys[i] != SlotKey(s)
      {
        var a, b := keys[i], SlotKey(s);
        assert |a| != |b| || a[0] != b[0] || a[1] != b[1];
      }
    }
  }

  /** The artifact keys that the gateway's API accepts. */
  const API_KEYS: seq<string> :=
    ["bid_card", "triage", "scoping", "ba_draft", "sa_draft", "domain_notes", "convergence", "hld", "wbs", "pricing",
     "proposal_package", "reviews", "submission", "retrospective"]

  /** The keys of the stages in pipeline order are exactly those of the API, in its order. */
  lemma AnnouncedKeysAreApi()
    ensures API_KEYS == ArtifactKeys(Completed(S0)) + ArtifactKeys(Completed(S1)) + ArtifactKeys(Completed(S0_5))
                        + ArtifactKeys(Completed(S2)) + ArtifactKeys(Completed(S3)) + ArtifactKeys(Completed(S4))
                        + ArtifactKeys(Completed(S5)) + ArtifactKeys(Completed(S6)) + ArtifactKeys(Completed(S7))
                        + ArtifactKeys(Completed(S8)) + ArtifactKeys(Completed(S9)) + ArtifactKeys(Completed(S10))
                        + ArtifactKeys(Completed(S11))
    ensures ArtifactKeys(Declined) == [] && ArtifactKeys(Completed(S0_5)) == []
  {
  }

  ghost predicate ChainedAt(events: seq<Event>, i: nat)
    requires i < |events|
  {
    && events[i].seqNo == i + 1
    && events[i].fromState == (if i == 0 then None else Some(events[i - 1].toState))
    && events[i].artifactKeys == ArtifactKeys(events[i].toState)
  }

  /** Sequence numbers 1, 2, 3, ... and each event leaves the state the one before it entered. */
  ghost predicate Chained(events: seq<Event>, bidId: string) {
    forall i: nat {:trigger ChainedAt(events, i)} :: i < |events| ==> ChainedAt(events, i) && events[i].bidId == bidId
  }

  /** Every event carries the id of this workflow. */
  ghost predicate OfRun(events: seq<Event>, workflowId: string) {
    forall e :: e in events ==> e.workflowId == workflowId
  }

  ghost predicate ChainOk(events: seq<Event>, card: Option<BidCard>) {
    if card.Some? then Chained(events, card.value.bidId) else events == []
  }

  lemma ChainedSnoc(events: seq<Event>, bidId: string, e: Event)
    requires Chained(events, bidId) && e.bidId == bidId && e.seqNo == |events| + 1
    requires e.fromState == if events == [] then None else Some(events[|events| - 1].toState)
    requires e.artifactKeys == ArtifactKeys(e.toState)
    ensures Chained(events + [e], bidId)
  {
    hide ArtifactKeys;
    var more := events + [e];
    forall i: nat | i < |more|
      ensures ChainedAt(more, i) && more[i].bidId == bidId
    {
      assert i == |events| || ChainedAt(events, i);
    }
  }

  /** The next number, leaving the last state entered: the event extends the chain. */
  lemma {:induction false} ChainExtends(events: seq<Event>, bidId: string, e: Event)
    requires Chained(events, bidId) && e.bidId == bidId && e.seqNo == |events| + 1
    requires e.fromState == if events == [] then None else Some(events[|events| - 1].toState)
    requires e.artifactKeys == ArtifactKeys(e.toState)
    ensures Chained(events + [e], bidId)
    ensures Phases(events + [e]) == Phases(events) + [e.toState]
    ensures CostSum(events + [e]) == match e.cost case None => CostSum(events) case Some(c) => CostSum(events) + c
  {
    hide ArtifactKeys, Chained;
    ChainedSnoc(events, bidId, e);
    assert (events + [e])[..|events|] == events;
  }

  function Phases(events: seq<Event>): seq<Phase> {
    seq(|events|, i requires 0 <= i < |events| => events[i].toState)
  }

  function CostSum(events: seq<Event>): int {
    if events == [] then 0
    else CostSum(events[..|events| - 1]) + CostOf(events[|events| - 1].cost)
  }

  function Done(stages: seq<Stage>): seq<Phase> {
    seq(|stages|, i requires 0 <= i < |stages| => Completed(stages[i]))
  }

  lemma DoneAppend(a: seq<Stage>, b: seq<Stage>)
    ensures Done(a + b) == Done(a) + Done(b)
  {
  }

  const PROLOGUE: seq<Phase> := [Completed(S0), Completed(S1)]

  ghost predicate Jumps(stages: seq<Stage>, jumps: seq<Stage>) {
    forall i :: 0 <= i < |jumps| ==> jumps[i] in stages && IsLoopTarget(jumps[i])
  }

  /** Where the pipeline was (re)entered last: S0.5 at first, then the last loop-back target. */
  function Entry(stages: seq<Stage>, jumps: seq<Stage>): nat {
    if jumps == [] then 2 else Position(stages, jumps[|jumps| - 1])
  }

  /** The stages of all finished passes: each runs from its entry through S9. */
  function Passes(stages: seq<Stage>, jumps: seq<Stage>): seq<Stage> {
    if jumps == [] then [] else
      var before := jumps[..|jumps| - 1];
      Passes(stages, before) + Slice(stages, Entry(stages, before), Position(stages, S9) + 1)
  }

  /** Everything completed after the human gate when the loop stands at position `idx`. */
  function Walk(stages: seq<Stage>, jumps: seq<Stage>, idx: nat): seq<Phase> {
    Done(Passes(stages, jumps)) + Done(Slice(stages, Entry(stages, jumps), idx))
  }

  lemma WalkForward(stages: seq<Stage>, jumps: seq<Stage>, idx: nat)
    requires Entry(stages, jumps) <= idx < |stages|
    ensures Walk(stages, jumps, idx + 1) == Walk(stages, jumps, idx) + [Completed(stages[idx])]
  {
    var e := Entry(stages, jumps);
    SliceSnoc(stages, e, idx);
    DoneAppend(stages[e..idx], [stages[idx]]);
  }

  lemma WalkBack(stages: seq<Stage>, jumps: seq<Stage>, target: Stage)
    requires target in stages
    ensures Walk(stages, jumps + [target], Position(stages, target)) == Walk(stages, jumps, Position(stages, S9) + 1)
  {
    var more := jumps + [target];
    assert more[..|jumps|] == jumps;
    DoneAppend(Passes(stages, jumps), Slice(stages, Entry(stages, jumps), Position(stages, S9) + 1));
    assert Done(Passes(stages, more)) + Done([]) == Done(Passes(stages, more));
  }

  /** The phases announced so far are exactly those of the passes the rounds imply, up to position `idx`. */
  ghost predicate Itinerary(phases: seq<Phase>, stages: seq<Stage>, rounds: seq<Round>, idx: nat) {
    && Entry(stages, Rewinds(rounds)) <= idx <= |stages|
    && phases == PROLOGUE + Walk(stages, Rewinds(rounds), idx)
  }

  lemma ItineraryStarts(stages: seq<Stage>)
    requires Layout(stages)
    ensures Position(stages, S0_5) == 2
    ensures Itinerary(PROLOGUE, stages, [], 2)
  {
    assert stages[2] == S0_5;
    IndexByRank(stages, S0_5, 2);
    assert Walk(stages, [], 2) == [];
  }

  lemma {:induction false} ItineraryForward(phases: seq<Phase>, stages: seq<Stage>, rounds: seq<Round>, idx: nat)
    requires Itinerary(phases, stages, rounds, idx) && idx < |stages|
    ensures Itinerary(phases + [Completed(stages[idx])], stages, rounds, idx + 1)
  {
    hide Walk, Rewinds;
    WalkForward(stages, Rewinds(rounds), idx);
  }

  /** The gate let the bid on, or stopped it: S9 is announced and the position moves past it. */
  lemma ItineraryOn(phases: seq<Phase>, stages: seq<Stage>, rounds: seq<Round>, r: Round, idx: nat)
    requires idx < |stages| && stages[idx] == S9 && Itinerary(phases, stages, rounds, idx) && !r.outcome.Rewound?
    ensures Itinerary(phases + [Completed(S9)], stages, rounds + [r], idx + 1)
  {
    hide Walk, Rewinds;
    LoopBacksSnoc(rounds, r);
    assert Rewinds(rounds + [r]) == Rewinds(rounds);
    ItineraryForward(phases, stages, rounds, idx);
  }

  /** The gate sent the bid back: S9 is announced and the position is the target's. */
  lemma {:induction false} ItineraryBack(phases: seq<Phase>, stages: seq<Stage>, rounds: seq<Round>, r: Round, idx: nat)
    requires idx < |stages| && stages[idx] == S9 && idx == Position(stages, S9)
             && Itinerary(phases, stages, rounds, idx)
    requires r.outcome.Rewound? && r.outcome.target in stages
    ensures Itinerary(phases + [Completed(S9)], stages, rounds + [r], Position(stages, r.outcome.target))
  {
    hide Walk, Rewinds;
    LoopBacksSnoc(rounds, r);
    WalkForward(stages, Rewinds(rounds), idx);
    WalkBack(stages, Rewinds(rounds), r.outcome.target);
    assert phases + [Completed(S9)] == PROLOGUE + (Walk(stages, Rewinds(rounds), idx) + [Completed(S9)]);
  }

  /** `b` may be announced right after `a`: the next stage of the pipeline, or a jump back from the gate. */
  ghost predicate Step(stages: seq<Stage>, jumps: seq<Stage>, a: Stage, b: Stage) {
    (exists k: nat :: NextAt(stages, k, a, b)) || (a == S9 && b in jumps)
  }

  ghost predicate NextAt(stages: seq<Stage>, k: nat, a: Stage, b: Stage) {
    k + 1 < |stages| && stages[k] == a && stages[k + 1] == b
  }

  ghost predicate StepAt(stages: seq<Stage>, jumps: seq<Stage>, trail: seq<Stage>, i: nat)
    requires i + 1 < |trail|
  {
    Step(stages, jumps, trail[i], trail[i + 1])
  }

  ghost predicate StepsOk(stages: seq<Stage>, jumps: seq<Stage>, trail: seq<Stage>) {
    forall i: nat {:trigger StepAt(stages, jumps, trail, i)} :: i + 1 < |trail| ==> StepAt(stages, jumps, trail, i)
  }

  /** How many announcements go back to an earlier stage. */
  function Backs(trail: seq<Stage>): nat {
    if |trail| < 2 then 0
    else Backs(trail[..|trail| - 1]) + if Rank(trail[|trail| - 1]) < Rank(trail[|trail| - 2]) then 1 else 0
  }

  /** The stages completed after the human gate (see `Walk`). */
  function Trail(stages: seq<Stage>, jumps: seq<Stage>, idx: nat): seq<Stage> {
    Passes(stages, jumps) + Slice(stages, Entry(stages, jumps), idx)
  }

  lemma WalkIsTrail(stages: seq<Stage>, jumps: seq<Stage>, idx: nat)
    ensures Walk(stages, jumps, idx) == Done(Trail(stages, jumps, idx))
  {
    DoneAppend(Passes(stages, jumps), Slice(stages, Entry(stages, jumps), idx));
  }

  /** The loop re-enters the pipeline at or before the gate's predecessor, so the last pass announced something. */
  lemma EntryBeforeGate(stages: seq<Stage>, jumps: seq<Stage>)
    requires Layout(stages) && Jumps(stages, jumps)
    ensures Entry(stages, jumps) < Position(stages, S9) < |stages|
  {
    hide Ordered, FirstIndex;
    RankOrder(stages, 2, Position(stages, S9));
    if jumps != [] { RankOrder(stages, Position(stages, jumps[|jumps| - 1]), Position(stages, S9)); }
  }

  lemma GateIsIn(stages: seq<Stage>)
    requires Layout(stages)
    ensures S9 in stages
  {
  }

  lemma SliceEnds(stages: seq<Stage>, lo: nat, hi: nat)
    requires lo <= hi < |stages|
    ensures var t := Slice(stages, lo, hi + 1); t != [] && t[|t| - 1] == stages[hi]
  {
  }

  /** Finished passes end at the gate. */
  lemma PassesEndAtGate(stages: seq<Stage>, jumps: seq<Stage>)
    requires Layout(stages) && Jumps(stages, jumps) && jumps != []
    ensures Passes(stages, jumps) == Trail(stages, jumps[..|jumps| - 1], Position(stages, S9) + 1)
    ensures Entry(stages, jumps[..|jumps| - 1]) <= Position(stages, S9)
    ensures var t := Passes(stages, jumps); t != [] && t[|t| - 1] == S9
  {
    hide Layout, Position, Entry, Slice;
    var before := jumps[..|jumps| - 1];
    EntryBeforeGate(stages, before);
    assert stages[Position(stages, S9)] == S9 by { GateIsIn(stages); }
    SliceEnds(stages, Entry(stages, before), Position(stages, S9));
  }

  lemma GatePrecedes(stages: seq<Stage>, jumps: seq<Stage>, idx: nat)
    requires Layout(stages) && Jumps(stages, jumps) && jumps != [] && idx == Entry(stages, jumps)
    ensures var t := Passes(stages, jumps);
            t != [] && t[|t| - 1] == S9 && idx < |stages| && stages[idx] in jumps
  {
    PassesEndAtGate(stages, jumps);
  }

  /** Adding the stage at `idx` to a trail that ends just before it. */
  lemma TrailGrows(stages: seq<Stage>, jumps: seq<Stage>, idx: nat)
    requires Layout(stages) && Jumps(stages, jumps) && Entry(stages, jumps) <= idx < |stages|
    ensures Trail(stages, jumps, idx + 1) == Trail(stages, jumps, idx) + [stages[idx]]
    ensures var t := Trail(stages, jumps, idx);
            t != [] ==> Step(stages, jumps, t[|t| - 1], stages[idx])
                        && (Rank(stages[idx]) < Rank(t[|t| - 1]) ==> idx == Entry(stages, jumps) && jumps != [])
  {
    hide Passes, Ordered, Position, Jumps;
    SliceSnoc(stages, Entry(stages, jumps), idx);
    var t := Trail(stages, jumps, idx);
    if idx == Entry(stages, jumps) {
      assert t == Passes(stages, jumps);
      if jumps != [] {
        GatePrecedes(stages, jumps, idx);
      } else {
        assert t == [] by { NoSteps(stages, jumps, t); }
      }
    } else {
      assert t[|t| - 1] == stages[idx - 1];
      assert NextAt(stages, idx - 1, stages[idx - 1], stages[idx]);
      RankOrder(stages, idx - 1, idx);
    }
  }

  lemma {:induction false} StepsSnoc(stages: seq<Stage>, jumps: seq<Stage>, trail: seq<Stage>, s: Stage)
    requires StepsOk(stages, jumps, trail)
    requires trail != [] ==> Step(stages, jumps, trail[|trail| - 1], s)
    ensures StepsOk(stages, jumps, trail + [s])
    ensures Backs(trail + [s]) == Backs(trail) + if trail != [] && Rank(s) < Rank(trail[|trail| - 1]) then 1 else 0
  {
    var more := trail + [s];
    assert more[..|trail|] == trail;
    forall i: nat | i + 1 < |more|
      ensures StepAt(stages, jumps, more, i)
    {
      hide Step;
      assert i + 1 == |trail| || StepAt(stages, jumps, trail, i);
    }
  }

  lemma StepsMore(stages: seq<Stage>, jumps: seq<Stage>, trail: seq<Stage>)
    requires jumps != [] && StepsOk(stages, jumps[..|jumps| - 1], trail)
    ensures StepsOk(stages, jumps, trail)
  {
    forall i: nat | i + 1 < |trail|
      ensures StepAt(stages, jumps, trail, i)
    {
      assert StepAt(stages, jumps[..|jumps| - 1], trail, i);
    }
  }

  /**
   Every announcement after the human gate is the next stage of the pipeline or a jump back from
   the gate to a rewind's target, and going back happens once a rewind at most.
   */
  lemma {:induction false} TrailSteps(stages: seq<Stage>, jumps: seq<Stage>, idx: nat)
    requires Layout(stages) && Jumps(stages, jumps) && Entry(stages, jumps) <= idx <= |stages|
    ensures StepsOk(stages, jumps, Trail(stages, jumps, idx))
    ensures Backs(Trail(stages, jumps, idx)) <= |jumps|
    ensures idx == Entry(stages, jumps) && jumps != [] ==> Backs(Trail(stages, jumps, idx)) < |jumps|
    decreases |jumps|, idx
  {
    hide Layout, Passes, Backs, StepsOk, Step, Position;
    if Entry(stages, jumps) < idx {
      TrailSteps(stages, jumps, idx - 1);
      TrailGrows(stages, jumps, idx - 1);
      StepsSnoc(stages, jumps, Trail(stages, jumps, idx - 1), stages[idx - 1]);
    } else if jumps != [] {
      var before := jumps[..|jumps| - 1];
      PassesEndAtGate(stages, jumps);
      var gate := GateFits(stages);
      TrailSteps(stages, before, gate + 1);
      StepsMore(stages, jumps, Trail(stages, before, gate + 1));
      assert Trail(stages, jumps, idx) == Passes(stages, jumps);
    } else {
      NoSteps(stages, jumps, Trail(stages, jumps, idx));
    }
  }

  lemma GateFits(stages: seq<Stage>) returns (gate: nat)
    requires Layout(stages)
    ensures gate == Position(stages, S9) < |stages|
  {
    gate := Position(stages, S9);
  }

  lemma NoSteps(stages: seq<Stage>, jumps: seq<Stage>, trail: seq<Stage>)
    requires jumps == [] && trail == Passes(stages, jumps)
    ensures trail == [] && StepsOk(stages, jumps, trail) && Backs(trail) == 0
  {
  }

  /**
   The event chain of a run: after the two prologue phases, the announced stages form a trail of
   pipeline steps and at most two jumps back from S9, each to a loop-back target.
   */
  lemma {:induction false} AnnouncedInOrder(phases: seq<Phase>, stages: seq<Stage>, reviewers: nat,
                                            rounds: seq<Round>, idx: nat)
    returns (trail: seq<Stage>)
    requires Layout(stages) && RoundsOk(stages, reviewers, rounds) && Itinerary(phases, stages, rounds, idx)
    ensures phases == PROLOGUE + Done(trail)
    ensures StepsOk(stages, Rewinds(rounds), trail) && Jumps(stages, Rewinds(rounds))
    ensures Backs(trail) < MAX_REVIEW_ROUNDS
    ensures idx > Entry(stages, Rewinds(rounds)) ==> trail != [] && trail[|trail| - 1] == stages[idx - 1]
  {
    hide Layout, RoundsOk, Rewinds, Walk, StepsOk, Jumps, Passes, Backs;
    var jumps := Rewinds(rounds);
    RewindsAreJumps(stages, reviewers, rounds);
    RoundsBounded(stages, reviewers, rounds);
    WalkIsTrail(stages, jumps, idx);
    TrailSteps(stages, jumps, idx);
    trail := Trail(stages, jumps, idx);
  }

  lemma LastStage(p: Profile, stages: seq<Stage>)
    requires PipelineOf(p, stages)
    ensures stages[|stages| - 1] == S11
  {
    hide Ordered, FirstIndex;
    assert Has(p, S11);
    TailOfPipeline(p, stages, Position(stages, S11));
  }

  lemma LastPhase(phases: seq<Phase>, trail: seq<Stage>)
    requires phases == PROLOGUE + Done(trail) && trail != []
    ensures phases[|phases| - 1] == Completed(trail[|trail| - 1])
  {
  }

  lemma GatePlace(p: Profile, stages: seq<Stage>, idx: nat)
    requires PipelineOf(p, stages) && idx < |stages| && stages[idx] == S9
    ensures idx + 1 < |stages| && stages[idx + 1] == S10 && idx == Position(stages, S9)
  {
    TailOfPipeline(p, stages, idx);
    IndexByRank(stages, S9, idx);
  }

  /** A round never ends unroutable, and it sends the bid back only to a loop-back target before the cap. */
  lemma LastRoundRoutes(stages: seq<Stage>, reviewers: nat, rounds: seq<Round>, r: Round)
    requires Layout(stages) && RoundsOk(stages, reviewers, rounds + [r])
    ensures !r.outcome.Unroutable?
    ensures r.outcome.Rewound?
            ==> r.outcome.target in stages && IsLoopTarget(r.outcome.target) && |rounds| + 1 < MAX_REVIEW_ROUNDS
  {
    assert RoundAt(stages, reviewers, rounds + [r], |rounds|);
    assert (rounds + [r])[|rounds|] == r;
    if r.taken != [] {
      RouteIsEarliestAvailable(stages, r.taken[|r.taken| - 1].comments);
    }
  }

  /** What the finished round removed from the shelf. */
  function Cleared(r: Round): set<Slot> {
    if r.outcome.Capped? || r.outcome.Rewound? then Elements(Cleanup(r.outcome.target)) else {}
  }

  /** A capped request cleared the package, whichever target it named. */
  lemma CappedAtTarget(p: Profile, stages: seq<Stage>, reviewers: nat, rounds: seq<Round>)
    requires RoundsOk(stages, reviewers, rounds) && rounds != []
    ensures StoppedRank(rounds) <= Rank(S8) <==> rounds[|rounds| - 1].outcome.Capped?
    ensures Has(p, S8)
  {
    hide AllReviews, AllApproved;
    assert RoundAt(stages, reviewers, rounds, |rounds| - 1);
    var taken := rounds[|rounds| - 1].taken;
    if rounds[|rounds| - 1].outcome.Capped? {
      RouteIsTarget(stages, taken[|taken| - 1].comments);
    }
  }

  /** Whatever the pipeline, a routed target is a loop-back stage. */
  lemma RouteIsTarget(stages: seq<Stage>, comments: seq<Comment>)
    ensures Route(stages, comments).Some? ==> IsLoopTarget(Route(stages, comments).value)
  {
    CandidatesAreTargets(stages, LoopRank(ChosenTarget(comments)));
  }

  lemma {:induction false} CandidatesAreTargets(stages: seq<Stage>, rank: nat)
    ensures forall s :: s in ForwardCandidates(stages, rank) ==> IsLoopTarget(s)
  {
    if stages != [] { CandidatesAreTargets(stages[1..], rank); }
  }

  lemma TargetPlace(stages: seq<Stage>, t: Stage, idx: nat)
    requires Layout(stages) && idx < |stages| && stages[idx] == S9 && t in stages && IsLoopTarget(t)
    ensures t in stages[..idx] && 2 <= Position(stages, t) < idx
  {
    IndexByRank(stages, t, idx);
    RankOrder(stages, FirstIndex(stages, t), 2);
  }

  /** The last round stopped the bid: timeout, rejection, or a third request for changes. */
  ghost predicate StoppedBy(rounds: seq<Round>) {
    rounds != [] && var o := rounds[|rounds| - 1].outcome; o.TimedOut? || o.Refused? || o.Capped?
  }
}
